/** The outcome classifier of `Job` (ruby_backup.rb:173-284): how the
    combined output and exit status of one duplicity run become error flags,
    a full-backup flag and a statistics table. */
module Classifier {
  import opened Wrappers
  import opened ErrorFlags
  import opened Text
  import opened Logging

  const StatsBorder: string := "--------------"
  /** `DUPLICITY_STATS_HEADER` without its newline. */
  const StatsHeaderText: string := StatsBorder + "[ Backup Statistics ]" + StatsBorder
  /** The line that separates duplicity's log from its statistics. */
  const StatsHeader: string := StatsHeaderText + "\n"

  const FullBackupText: string := "Last full backup is too old, " + "forcing full backup"
  /** The third log line of a backup that duplicity chose to make full. */
  const FullBackupLine: string := FullBackupText + "\n"

  const BadKeyText: string := "gpg: decryption failed: bad key"
  /** The log line of a run with the wrong passphrase. */
  const BadKeyLine: string := BadKeyText + "\n"

  const BadKeyMessage: string := "Fail: Bad encryption key. Please fix backup spec."

  /** What one duplicity process gave back: its combined stdout and stderr,
      and its exit status (None when it was killed by a signal, where Ruby's
      `exitstatus` is nil). */
  datatype EngineResult = EngineResult(output: string, exit: Option<int>)

  lemma StatsHeaderShape()
    ensures LastCharUnique(StatsHeader)
  {
    assert '\n' !in StatsBorder && '\n' !in "[ Backup Statistics ]";
    assert '\n' !in StatsHeaderText;
    assert forall i :: 0 <= i < |StatsHeaderText| ==> StatsHeader[i] == StatsHeaderText[i];
  }

  lemma KnownLinesAreComplete()
    ensures IsCompleteLine(FullBackupLine) && IsCompleteLine(BadKeyLine)
  {
    assert '\n' !in "Last full backup is too old, " && '\n' !in "forcing full backup";
    assert FullBackupLine[..|FullBackupLine| - 1] == FullBackupText;
    assert BadKeyLine[..|BadKeyLine| - 1] == BadKeyText;
  }

  // ---------------------------------------------------------------------
  // the log section

  /** The classification of the log section, with the event it logs. */
  datatype LogVerdict = LogVerdict(error: Flags, full: bool, events: seq<Event>)

  /** `Job#parse_duplicity_log` */
  function ParseLog(log: string): LogVerdict {
    var n := Count(log, '\n');
    var lines := Lines(log);
    var full := n == 3 && |lines| > 2 && lines[2] == FullBackupLine;
    var error := if n == 2 || full then OK else MAYBE;
    if n > 3 && BadKeyLine in lines then
      LogVerdict(YES, full, [Event(Err, BadKeyMessage)])
    else
      LogVerdict(error, full, [])
  }

  /** The classification as a table on the number n of newlines. */
  lemma ParseLogTable(log: string)
    ensures var n := Count(log, '\n');
      var v := ParseLog(log);
      var badKey := n > 3 && BadKeyLine in Lines(log);
      && (n == 2 ==> v == LogVerdict(OK, false, []))
      && (n == 3 ==> v.events == [] && v.error == (if v.full then OK else MAYBE))
      && (v.full <==> n == 3 && |Lines(log)| > 2 && Lines(log)[2] == FullBackupLine)
      && (v.full ==> v == LogVerdict(OK, true, []))
      && (n != 2 && n != 3 && !badKey ==> v == LogVerdict(MAYBE, false, []))
      && (badKey ==> v == LogVerdict(YES, false, [Event(Err, BadKeyMessage)]))
      && (v.events != [] <==> badKey)
  {
  }

  lemma {:induction false} CountOfLine(l: string)
    requires IsCompleteLine(l)
    ensures Count(l, '\n') == 1
  {
    LinesOfSingle(l);
    LinesCount(l);
  }

  /** Lines of a text that ends a line are followed by the lines of what
      comes after it. */
  lemma {:induction false} LinesAppend(pre: string, s: string)
    requires pre == [] || EndsWithNewline(pre)
    ensures Lines(pre + s) == Lines(pre) + Lines(s)
    decreases |pre|
  {
    if pre == [] {
      assert pre + s == s;
    } else {
      var c, t := pre[0], pre[1..];
      assert t == [] || EndsWithNewline(t) by {
        if t != [] { assert t[|t| - 1] == pre[|pre| - 1]; }
      }
      LinesAppend(t, s);
      assert pre == [c] + t && pre + s == [c] + (t + s);
      if c == '\n' {
        LinesAppendNewline(t, s);
      } else {
        LinesAppendGlued(c, t, s);
      }
    }
  }

  /** The inductive step of LinesAppend for a newline in front. */
  lemma LinesAppendNewline(t: string, s: string)
    requires Lines(t + s) == Lines(t) + Lines(s)
    ensures Lines(['\n'] + (t + s)) == Lines(['\n'] + t) + Lines(s)
  {
    LinesCons('\n', t);
    LinesCons('\n', t + s);
    AppendAssoc([['\n']], Lines(t), Lines(s));
  }

  /** The inductive step for another character, which joins the first line. */
  lemma LinesAppendGlued(c: char, t: string, s: string)
    requires c != '\n' && t != []
    requires Lines(t + s) == Lines(t) + Lines(s)
    ensures Lines([c] + (t + s)) == Lines([c] + t) + Lines(s)
  {
    var ls, rt := Lines(s), Lines(t);
    LinesCons(c, t);
    LinesCons(c, t + s);
    LinesCons(t[0], t[1..]);
    assert [t[0]] + t[1..] == t;
    assert rt != [];
    TailOfAppend(rt, ls);
    var h := [c] + rt[0];
    AppendAssoc([h], rt[1..], ls);
  }

  /** One more character in front of a text. */
  lemma LinesCons(c: char, u: string)
    ensures var r := Lines(u);
      Lines([c] + u) == if c == '\n' || r == [] then [[c]] + r else [[c] + r[0]] + r[1..]
  {
    assert ([c] + u)[1..] == u;
  }

  /** A log of two complete lines is a clean incremental backup. */
  lemma {:induction false} TwoLineLogIsOk(a: string, b: string)
    requires IsCompleteLine(a) && IsCompleteLine(b)
    ensures ParseLog(a + b) == LogVerdict(OK, false, [])
  {
    CountAppend(a, b, '\n');
    CountOfLine(a);
    CountOfLine(b);
  }

  /** Two lines followed by the forcing-full line is a clean full backup. */
  lemma {:induction false} ForcedFullLogIsOk(a: string, b: string)
    requires IsCompleteLine(a) && IsCompleteLine(b)
    ensures ParseLog(a + b + FullBackupLine) == LogVerdict(OK, true, [])
  {
    KnownLinesAreComplete();
    var log := a + b + FullBackupLine;
    var ls := [a, b, FullBackupLine];
    assert Concat(ls) == log by {
      assert ls[1..][1..][1..] == [];
      assert Concat(ls[1..][1..]) == FullBackupLine;
    }
    LinesOfConcat(ls);
    LinesCount(log);
    assert log[|log| - 1] == '\n';
  }

  /** A bad-key line inside a log of more than three lines makes the run a
      definite failure and logs one error, whatever the rest says. */
  lemma {:induction false} BadKeyOverrides(pre: string, post: string)
    requires pre == [] || EndsWithNewline(pre)
    requires Count(pre + BadKeyLine + post, '\n') > 3
    ensures ParseLog(pre + BadKeyLine + post) == LogVerdict(YES, false, [Event(Err, BadKeyMessage)])
  {
    KnownLinesAreComplete();
    LinesAppend(pre, BadKeyLine + post);
    LinesAfterCompleteLine(BadKeyLine, post);
    assert pre + BadKeyLine + post == pre + (BadKeyLine + post);
    var ls := Lines(pre + BadKeyLine + post);
    assert ls[|Lines(pre)|] == BadKeyLine;
  }

  // ---------------------------------------------------------------------
  // the statistics section

  /** Statistic name to value; the value is nil (None) for a line with a
      single field. */
  type Stats = map<string, Option<string>>

  /** What `line.split(' ', 2)` gives as `key, val`. */
  datatype Entry = Entry(key: string, value: Option<string>)

  /** `line` read as `split(' ', 2)` reads it, the key starting at p:
      blanks, then the blank-free key, then either the end of the line or a
      non-empty run of blanks and the value, which does not start with a
      blank. An empty key comes only from a line of blanks, with no value. */
  predicate SplitAt(line: string, e: Entry, p: nat) {
    var k := e.key;
    && KeyAt(line, p, k)
    && (k == [] ==> e.value.None?)
    && (e.value.None? ==> p + |k| == |line|)
    && (e.value.Some? ==>
          var v := e.value.value;
          && p + |k| < |line| - |v|
          && line[|line| - |v|..] == v
          && (forall i :: p + |k| <= i < |line| - |v| ==> IsSpace(line[i]))
          && (v == [] || !IsSpace(v[0])))
  }

  /** Ruby's awk-style `line.split(' ', 2)`: leading blanks are skipped, the
      key is the first blank-free run, and the value is the rest after the
      blanks that follow the key (nil when the key ends the line). Only
      called on non-empty lines. */
  function SplitKeyValue(line: string): (e: Entry)
    requires line != []
    ensures exists p :: SplitAt(line, e, p)
  {
    var t := TrimLeft(line);
    if t == [] then
      SplitBlankLine(line);
      Entry([], None)
    else
      var k := Word(t);
      var rest := t[|k|..];
      if rest == [] then
        SplitKeyOnly(line);
        Entry(k, None)
      else
        SplitKeyAndValue(line);
        Entry(k, Some(TrimLeft(rest)))
  }

  /** A line of blanks has an empty key and no value. */
  lemma SplitBlankLine(line: string)
    requires TrimLeft(line) == []
    ensures SplitAt(line, Entry([], None), |line|)
  {
  }

  /** The key where the leading blanks end: a non-empty, blank-free word. */
  lemma WordAfterBlanks(line: string)
    requires TrimLeft(line) != []
    ensures var t := TrimLeft(line);
      var k := Word(t);
      k != [] && KeyAt(line, |line| - |t|, k)
  {
    var t := TrimLeft(line);
    var p := |line| - |t|;
    var k := Word(t);
    assert k != [] by { assert !IsSpace(t[0]); }
    assert line[p..p + |k|] == k;
  }

  /** A word that ends the line leaves no value. */
  lemma SplitKeyOnly(line: string)
    requires TrimLeft(line) != []
    requires var t := TrimLeft(line); |Word(t)| == |t|
    ensures var t := TrimLeft(line);
      SplitAt(line, Entry(Word(t), None), |line| - |t|)
  {
    WordAfterBlanks(line);
  }

  /** Otherwise blanks follow the word, and the value is what follows them. */
  lemma SplitKeyAndValue(line: string)
    requires TrimLeft(line) != []
    requires var t := TrimLeft(line); |Word(t)| < |t|
    ensures var t := TrimLeft(line);
      var k := Word(t);
      SplitAt(line, Entry(k, Some(TrimLeft(t[|k|..]))), |line| - |t|)
  {
    var t := TrimLeft(line);
    TrimLeftBlanks(line);
    var k := Word(t);
    var rest := t[|k|..];
    TrimLeftBlanks(rest);
    KeyThenValue(line, |line| - |t|, t, k, rest, TrimLeft(rest));
  }

  /** The same, on the pieces alone: blanks, a word ended by a blank, and the
      value after the blanks that follow it. */
  lemma KeyThenValue(line: string, p: nat, t: string, k: string, rest: string, v: string)
    requires BlanksThen(line, p) && t == line[p..] && t != []
    requires |k| < |t| && k == t[..|k|] && IsSpace(t[|k|])
    requires forall i :: 0 <= i < |k| ==> !IsSpace(k[i])
    requires rest == t[|k|..]
    requires |v| <= |rest| && BlanksThen(rest, |rest| - |v|)
    requires v == rest[|rest| - |v|..]
    ensures SplitAt(line, Entry(k, Some(v)), p)
  {
    assert t[0] == line[p];
    assert k != [];
    assert line[p..p + |k|] == k;
    var q := p + |k|;
    assert rest == line[q..];
    assert rest[0] == t[|k|];
    assert |v| < |rest|;
    forall i | q <= i < |line| - |v|
      ensures IsSpace(line[i])
    {
      assert line[i] == rest[i - q];
    }
    assert line[|line| - |v|..] == v;
  }

  /** Blanks before p, then the blank-free key k. */
  predicate KeyAt(line: string, p: nat, k: string) {
    && p + |k| <= |line|
    && (forall i :: 0 <= i < p ==> IsSpace(line[i]))
    && line[p..p + |k|] == k
    && (forall i :: 0 <= i < |k| ==> !IsSpace(k[i]))
  }

  /** Conversely, a line of that shape splits into exactly that key and
      value: the split is the only reading of the line. */
  lemma SplitKeyValueInverse(line: string, e: Entry, p: nat)
    requires line != [] && SplitAt(line, e, p)
    ensures SplitKeyValue(line) == e
  {
    var k := e.key;
    InverseTrim(line, e, p);
    if k != [] {
      InverseWord(line, e, p);
      if e.value.Some? {
        InverseValue(line, e, p);
      }
    }
  }

  /** The leading blanks end at the key. */
  lemma InverseTrim(line: string, e: Entry, p: nat)
    requires SplitAt(line, e, p)
    ensures TrimLeft(line) == line[p..]
  {
    KeyAfterBlanks(line, p, e.key);
    TrimLeftAfter(line, p);
  }

  /** The first word after them is the key. */
  lemma InverseWord(line: string, e: Entry, p: nat)
    requires SplitAt(line, e, p) && e.key != []
    ensures Word(line[p..]) == e.key
    ensures line[p..][|e.key|..] == line[p + |e.key|..]
  {
    var rest := line[p + |e.key|..];
    WordThenRest(line, e, p, line[p..], rest);
    WordOf(e.key, rest);
  }

  /** And the blanks after the key end at the value. */
  lemma InverseValue(line: string, e: Entry, p: nat)
    requires SplitAt(line, e, p) && e.value.Some?
    ensures TrimLeft(line[p + |e.key|..]) == e.value.value
  {
    var rest := line[p + |e.key|..];
    BlanksThenValue(line, e, p, rest);
    TrimLeftAfter(rest, |rest| - |e.value.value|);
  }

  /** The key's position is where the leading blanks end. */
  lemma KeyAfterBlanks(line: string, p: nat, k: string)
    requires KeyAt(line, p, k) && (k == [] ==> p == |line|)
    ensures BlanksThen(line, p)
  {
    if k != [] {
      assert line[p] == k[0];
    }
  }

  /** After the blanks come the key and then a blank or the end of line. */
  lemma WordThenRest(line: string, e: Entry, p: nat, t: string, rest: string)
    requires SplitAt(line, e, p) && e.key != []
    requires t == line[p..] && rest == line[p + |e.key|..]
    ensures t == e.key + rest && (rest == [] || IsSpace(rest[0]))
  {
    var k := e.key;
    assert t == line[p..p + |k|] + rest;
    if rest != [] {
      assert rest[0] == line[p + |k|];
    }
  }

  /** Past the key, blanks lead up to the value. */
  lemma BlanksThenValue(line: string, e: Entry, p: nat, rest: string)
    requires SplitAt(line, e, p) && e.value.Some?
    requires rest == line[p + |e.key|..]
    ensures var v := e.value.value;
      |v| <= |rest| && BlanksThen(rest, |rest| - |v|) && rest[|rest| - |v|..] == v
  {
    var v := e.value.value;
    var q := p + |e.key|;
    forall i | 0 <= i < |rest| - |v|
      ensures IsSpace(rest[i])
    {
      assert rest[i] == line[q + i];
    }
    assert rest[|rest| - |v|..] == line[|line| - |v|..];
    if v != [] {
      assert rest[|rest| - |v|] == v[0];
    }
  }

  /** `/^-*$/ =~ line` on a line without a newline: empty or all dashes. */
  predicate IsBorder(line: string) {
    forall i :: 0 <= i < |line| ==> line[i] == '-'
  }

  /** One step of the `inject`: skip a border line, otherwise record its key
      and value, replacing an earlier value of the same key. */
  function Step(memo: Stats, line: string): Stats {
    if IsBorder(line) then memo
    else
      var e := SplitKeyValue(line);
      memo[e.key := e.value]
  }

  /** `lines.inject(memo) { ... }` */
  function Collect(memo: Stats, lines: seq<string>): Stats
    decreases |lines|
  {
    if lines == [] then memo else Collect(Step(memo, lines[0]), lines[1..])
  }

  /** `stat_str.lines.map(&:chomp)` */
  function ChompedLines(s: string): seq<string> {
    var raw := Lines(s);
    seq(|raw|, i requires 0 <= i < |raw| => Chomp(raw[i]))
  }

  /** Chomping leaves no newline in any of the lines. */
  lemma ChompedLinesSingle(s: string)
    ensures forall i :: 0 <= i < |ChompedLines(s)| ==> '\n' !in ChompedLines(s)[i]
  {
    var raw := Lines(s);
    LinesMeaning(s);
    forall i | 0 <= i < |raw|
      ensures '\n' !in ChompedLines(s)[i]
    {
      ChompLine(raw[i]);
    }
  }

  /** `stats[key]`: nil for a missing key as for a missing value. */
  function Lookup(stats: Stats, key: string): Option<string> {
    if key in stats then stats[key] else None
  }

  predicate SingleLineValues(stats: Stats) {
    forall k :: k in stats && stats[k].Some? ==> '\n' !in stats[k].value
  }

  datatype StatsVerdict = StatsVerdict(stats: Stats, error: Flags)

  /** `Job#parse_duplicity_stats` */
  function ParseStats(statStr: string): (v: StatsVerdict)
    ensures SingleLineValues(v.stats)
  {
    var lines := ChompedLines(statStr);
    ChompedLinesSingle(statStr);
    CollectKeepsSingleLine(map[], lines);
    var stats := Collect(map[], lines);
    StatsVerdict(stats, if Lookup(stats, "Errors") != Some("0") then YES else OK)
  }

  lemma {:induction false} CollectKeepsSingleLine(memo: Stats, lines: seq<string>)
    requires SingleLineValues(memo)
    requires forall i :: 0 <= i < |lines| ==> '\n' !in lines[i]
    ensures SingleLineValues(Collect(memo, lines))
    decreases |lines|
  {
    if lines != [] {
      var next := Step(memo, lines[0]);
      assert SingleLineValues(next) by {
        if !IsBorder(lines[0]) {
          var e := SplitKeyValue(lines[0]);
        }
      }
      CollectKeepsSingleLine(next, lines[1..]);
    }
  }

  /** The value the last non-border line with this key gives it, if any:
      the specification of "last duplicate key wins". */
  function LastEntry(lines: seq<string>, key: string): Option<Option<string>>
    decreases |lines|
  {
    if lines == [] then None
    else
      var line := lines[|lines| - 1];
      if !IsBorder(line) && SplitKeyValue(line).key == key then Some(SplitKeyValue(line).value)
      else LastEntry(lines[..|lines| - 1], key)
  }

  lemma {:induction false} CollectSnoc(memo: Stats, lines: seq<string>, line: string)
    ensures Collect(memo, lines + [line]) == Step(Collect(memo, lines), line)
    decreases |lines|
  {
    if lines == [] {
      assert [] + [line] == [line] && [line][1..] == [];
    } else {
      assert (lines + [line])[1..] == lines[1..] + [line];
      CollectSnoc(Step(memo, lines[0]), lines[1..], line);
    }
  }

  /** The table holds a key exactly when some non-border line names it, and
      then the value of the last such line. */
  lemma {:induction false} CollectLastWins(lines: seq<string>, key: string)
    ensures var stats := Collect(map[], lines);
      && (key in stats <==> LastEntry(lines, key).Some?)
      && (key in stats ==> stats[key] == LastEntry(lines, key).value)
    decreases |lines|
  {
    if lines != [] {
      var init := lines[..|lines| - 1];
      var last := lines[|lines| - 1];
      assert init + [last] == lines;
      CollectSnoc(map[], init, last);
      CollectLastWins(init, key);
    }
  }

  /** A section made only of borders and blank lines gives an empty table. */
  lemma {:induction false} CollectBorders(memo: Stats, lines: seq<string>)
    requires forall i :: 0 <= i < |lines| ==> IsBorder(lines[i])
    ensures Collect(memo, lines) == memo
    decreases |lines|
  {
    if lines != [] {
      CollectBorders(memo, lines[1..]);
    }
  }

  /** The statistics report no error exactly when the last `Errors` line of
      the section has the value `0`; a section without one is an error. */
  lemma StatsErrorMeaning(statStr: string)
    ensures var v := ParseStats(statStr);
      && (v.error == OK <==> LastEntry(ChompedLines(statStr), "Errors") == Some(Some("0")))
      && (v.error != OK ==> v.error == YES)
  {
    CollectLastWins(ChompedLines(statStr), "Errors");
  }

  /** A section of borders and blank lines only is an error with no table. */
  lemma AllBordersIsError(statStr: string)
    requires forall i :: 0 <= i < |ChompedLines(statStr)| ==> IsBorder(ChompedLines(statStr)[i])
    ensures ParseStats(statStr) == StatsVerdict(map[], YES)
  {
    CollectBorders(map[], ChompedLines(statStr));
  }

  // ---------------------------------------------------------------------
  // the human-readable statistic

  /** The number of leading digits. */
  function DigitRun(s: string): nat
    decreases |s|
  {
    if s != [] && IsDigit(s[0]) then 1 + DigitRun(s[1..]) else 0
  }

  /** The run is the longest prefix of digits: all of it digits, and the
      character after it (if any) not one. */
  lemma {:induction false} DigitRunMeaning(s: string)
    ensures var n := DigitRun(s);
      n <= |s| && (forall i :: 0 <= i < n ==> IsDigit(s[i])) && (n == |s| || !IsDigit(s[n]))
    decreases |s|
  {
    if s != [] && IsDigit(s[0]) {
      DigitRunMeaning(s[1..]);
    }
  }

  /** The text starts with `\d+ \(`; its length is then `DigitRun(s) + 2`. */
  predicate HasCountPrefix(s: string) {
    var n := DigitRun(s);
    0 < n && n + 2 <= |s| && s[n] == ' ' && s[n + 1] == '('
  }

  /** `gsub(/^\d+ \(/, '')` on a text without newlines. */
  function StripCount(s: string): string {
    if HasCountPrefix(s) then s[DigitRun(s) + 2..] else s
  }

  /** `gsub(/\)$/, '')` on a text without newlines. */
  function StripCloseParen(s: string): string {
    if s != [] && s[|s| - 1] == ')' then s[..|s| - 1] else s
  }

  /** `Job#stats_access_human`; the key must be present with a value (the
      source raises otherwise). Values of a parsed table hold no newline. */
  function StatsAccessHuman(stats: Stats, key: string): string
    requires key in stats && stats[key].Some? && '\n' !in stats[key].value
  {
    StripCloseParen(StripCount(stats[key].value))
  }

  /** `"<digits> (<h>)"` reads back as `h`. */
  lemma {:induction false} HumanOfCount(digits: string, h: string, stats: Stats, key: string)
    requires digits != [] && forall i :: 0 <= i < |digits| ==> IsDigit(digits[i])
    requires '\n' !in h
    requires key in stats && stats[key] == Some(digits + " (" + h + ")")
    ensures '\n' !in stats[key].value && StatsAccessHuman(stats, key) == h
  {
    var v := digits + " (" + h + ")";
    DigitRunPrefix(digits, " (" + h + ")");
    assert v == digits + (" (" + h + ")");
    assert v[|digits| + 2..] == h + ")";
  }

  lemma {:induction false} DigitRunPrefix(digits: string, rest: string)
    requires forall i :: 0 <= i < |digits| ==> IsDigit(digits[i])
    requires rest == [] || !IsDigit(rest[0])
    ensures DigitRun(digits + rest) == |digits|
    decreases |digits|
  {
    if digits == [] {
      assert digits + rest == rest;
    } else {
      assert (digits + rest)[1..] == digits[1..] + rest;
      DigitRunPrefix(digits[1..], rest);
    }
  }

  /** Only a leading `<digits> (` and one trailing `)` are removed; the middle
      of the value is returned untouched, and a value without either piece is
      returned as it is. */
  lemma HumanKeepsMiddle(stats: Stats, key: string)
    requires key in stats && stats[key].Some? && '\n' !in stats[key].value
    ensures var v := stats[key].value;
      var p := if HasCountPrefix(v) then DigitRun(v) + 2 else 0;
      var q := if StripCount(v) != [] && v[|v| - 1] == ')' then 1 else 0;
      && p + q <= |v|
      && StatsAccessHuman(stats, key) == v[p..|v| - q]
      && (!HasCountPrefix(v) && (v == [] || v[|v| - 1] != ')') ==> StatsAccessHuman(stats, key) == v)
  {
    var v := stats[key].value;
    var p := if HasCountPrefix(v) then DigitRun(v) + 2 else 0;
    var s := StripCount(v);
    assert s == v[p..];
    if s != [] {
      assert s[|s| - 1] == v[|v| - 1];
      if v[|v| - 1] == ')' {
        assert s[..|s| - 1] == v[p..|v| - 1];
      }
    }
  }

  // ---------------------------------------------------------------------
  // one backup or verify run

  /** `output.split(DUPLICITY_STATS_HEADER)` gives a first piece; the source
      fails on an output that is empty or made of headers only. */
  predicate HasLogSection(output: string) {
    RubySplit(output, StatsHeader) != []
  }

  /** The text before the first statistics header. */
  function LogSection(output: string): string
    requires HasLogSection(output)
  {
    RubySplit(output, StatsHeader)[0]
  }

  /** The text between the first and the second header, when it exists and
      is not a trailing empty piece. */
  function StatsSection(output: string): Option<string> {
    var ps := RubySplit(output, StatsHeader);
    if |ps| > 1 then Some(ps[1]) else None
  }

  /** `error |= Error::YES if exit_status != 0`; a nil status (a killed
      process) is not 0 either. */
  function ExitFlag(exit: Option<int>): (f: Flags)
    ensures HasYes(f) <==> exit != Some(0)
    ensures !HasMaybe(f)
  {
    if exit == Some(0) then OK else YES
  }

  /** The result of `Job#backup_to_sink`, with the events its classifier
      logged. */
  datatype BackupOutcome = BackupOutcome(
    error: Flags,
    full: bool,
    output: string,
    stats: Option<Stats>,
    logEvents: seq<Event>)

  /** The classification part of `Job#backup_to_sink`. */
  function ClassifyBackup(run: EngineResult): (o: BackupOutcome)
    requires HasLogSection(run.output)
    ensures o.output == run.output
    ensures o.stats.Some? ==> SingleLineValues(o.stats.value)
  {
    var log := ParseLog(LogSection(run.output));
    var section := StatsSection(run.output);
    var parsed := if section.Some? then Some(ParseStats(section.value)) else None;
    var statError := if parsed.Some? then parsed.value.error else OK;
    BackupOutcome(
      Or(Or(log.error, statError), ExitFlag(run.exit)),
      log.full,
      run.output,
      if parsed.Some? then Some(parsed.value.stats) else None,
      log.events)
  }

  /** The backup error combines the three sources by OR: MAYBE comes only
      from the log, YES from the log, the statistics or the exit status, and
      a missing statistics section contributes nothing. */
  lemma BackupErrorBits(run: EngineResult)
    requires HasLogSection(run.output)
    ensures var o := ClassifyBackup(run);
      var log := ParseLog(LogSection(run.output));
      var section := StatsSection(run.output);
      && (HasMaybe(o.error) <==> HasMaybe(log.error))
      && (HasYes(o.error) <==> HasYes(log.error) || run.exit != Some(0)
                               || (section.Some? && ParseStats(section.value).error == YES))
      && (section.None? ==> o.stats.None? && o.error == Or(log.error, ExitFlag(run.exit)))
      && (run.exit != Some(0) ==> HasYes(o.error))
      && o.full == log.full && o.logEvents == log.events
  {
    if StatsSection(run.output).Some? {
      StatsErrorMeaning(StatsSection(run.output).value);
    }
  }

  /** An output without a header is all log and no statistics. */
  lemma {:induction false} SectionsWithoutHeader(output: string)
    requires output != [] && !Occurs(output, StatsHeader)
    ensures HasLogSection(output) && LogSection(output) == output
    ensures StatsSection(output) == None
  {
    SplitWithout(output, StatsHeader);
  }

  /** `log + header + stats` splits back into its two sections. */
  lemma {:induction false} SectionsOfBackupOutput(log: string, stats: string)
    requires !Occurs(log, StatsHeader) && !Occurs(stats, StatsHeader) && stats != []
    ensures HasLogSection(log + StatsHeader + stats)
    ensures LogSection(log + StatsHeader + stats) == log
    ensures StatsSection(log + StatsHeader + stats) == Some(stats)
  {
    StatsHeaderShape();
    SplitAfterFirst(log, StatsHeader, stats);
    SplitWithout(stats, StatsHeader);
  }

  /** A header with nothing after it leaves no statistics section. */
  lemma {:induction false} SectionsWithEmptyStats(log: string)
    requires log != [] && !Occurs(log, StatsHeader)
    ensures HasLogSection(log + StatsHeader)
    ensures LogSection(log + StatsHeader) == log
    ensures StatsSection(log + StatsHeader) == None
  {
    StatsHeaderShape();
    SplitAfterFirst(log, StatsHeader, []);
    SplitWithout([], StatsHeader);
    assert log + StatsHeader + [] == log + StatsHeader;
  }

  /** The log section never contains the header. */
  lemma LogSectionHasNoHeader(output: string)
    requires HasLogSection(output)
    ensures !Occurs(LogSection(output), StatsHeader)
  {
    SplitPiecesAvoidSeparator(output, StatsHeader);
  }

  /** The result of `Job#verify_on_sink`. */
  datatype VerifyOutcome = VerifyOutcome(error: Flags, output: string)

  /** The classification part of `Job#verify_on_sink`: by exit status only. */
  function ClassifyVerify(run: EngineResult): (o: VerifyOutcome)
    ensures o.output == run.output
    ensures HasYes(o.error) <==> run.exit != Some(0)
    ensures !HasMaybe(o.error)
  {
    VerifyOutcome(ExitFlag(run.exit), run.output)
  }

  /** Verify is a definite failure exactly when the exit status is not 0, and
      the output text never matters. */
  lemma VerifyByExitOnly(run: EngineResult, other: string)
    ensures ClassifyVerify(run).error == YES <==> run.exit != Some(0)
    ensures ClassifyVerify(run).error == OK <==> run.exit == Some(0)
    ensures ClassifyVerify(EngineResult(other, run.exit)).error == ClassifyVerify(run).error
  {
  }
}
