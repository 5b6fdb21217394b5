/**
 The metrics script: each run prints a textfile for the collector, and a failed run first reads
 the last success back from the file that the previous run printed. A file is a sequence of
 lines; timestamps and byte counts are the strings that `date` and awk print.
 */
module BackupMetrics {

  // ---- awk's fields

  predicate IsBlank(c: char) {
    c == ' ' || c == '\t' || c == '\n'
  }

  predicate NoBlank(s: string) {
    forall i :: 0 <= i < |s| ==> !IsBlank(s[i])
  }

  /** A field: not empty, and without blanks. */
  predicate IsWord(s: string) {
    s != "" && NoBlank(s)
  }

  function SkipBlanks(s: string): (r: string)
    ensures |r| <= |s|
  {
    if s != "" && IsBlank(s[0]) then SkipBlanks(s[1..]) else s
  }

  function FirstWord(s: string): (r: string)
    ensures |r| <= |s|
  {
    if s == "" || IsBlank(s[0]) then "" else [s[0]] + FirstWord(s[1..])
  }

  /** What `print $2` prints for one line. */
  function SecondField(line: string): string {
    var s := SkipBlanks(line);
    FirstWord(SkipBlanks(s[|FirstWord(s)|..]))
  }

  /** `awk '/^prefix/ { print $2 }'`: one line of output for each matching line. */
  function Awk(file: seq<string>, prefix: string): seq<string> {
    if file == [] then [] else
      (if prefix <= file[0] then [SecondField(file[0])] else []) + Awk(file[1..], prefix)
  }

  /** Command substitution of those lines, which keeps the breaks between them. */
  function Captured(lines: seq<string>): string {
    if lines == [] then "" else if |lines| == 1 then lines[0] else lines[0] + "\n" + Captured(lines[1..])
  }

  // ---- the script

  /** A metric family: its name, and the text after the name in its HELP line. */
  datatype Family = Family(metric: string, help: string) {
    function Prefix(): string {
      metric + "{"
    }

    function Sample(name: string, value: string): string {
      Prefix() + "backup=\"" + name + "\"}" + " " + value
    }

    function Lines(name: string, value: string): seq<string> {
      ["# HELP " + metric + " " + help, "# TYPE " + metric + " gauge", Sample(name, value)]
    }
  }

  datatype Families = Families(lastRun: Family, runSuccess: Family, time: Family, bytes: Family)

  const LAST := "zaas_backup_last_"
  const SUCCESS := "success_"
  const TIMESTAMP := "timestamp_seconds"

  /** The families of the script. */
  const SCRIPT := Families(
    Family(LAST + ("run_" + TIMESTAMP), "Unix time of the last ZaaS backup run, successful or not."),
    Family(LAST + ("run_" + "success"), "Whether the last ZaaS backup run succeeded (1) or failed (0)."),
    Family(LAST + (SUCCESS + TIMESTAMP), "Unix time of the last successful ZaaS backup run."),
    Family(LAST + (SUCCESS + "bytes"), "Total bytes written by the last successful ZaaS backup run."))

  /** The lines of a carried family: none at all while there is no value. */
  function Carried(f: Family, name: string, value: string): seq<string> {
    if value == "" then [] else f.Lines(name, value)
  }

  /** The file printed by a run, given the last success it knows of. */
  function Printed(fs: Families, name: string, now: string, ok: bool, time: string, bytes: string): seq<string> {
    fs.lastRun.Lines(name, now) + fs.runSuccess.Lines(name, if ok then "1" else "0")
    + Carried(fs.time, name, time) + Carried(fs.bytes, name, bytes)
  }

  /** One run of the script: how the backup ended, when, and how many bytes it counted. */
  datatype BackupRun = BackupRun(ok: bool, now: string, bytes: string)

  class Collector {
    const families: Families
    const name: string
    var file: seq<string>  // the .prom file of this name; empty while there is none

    constructor (families: Families, name: string)
      ensures this.families == families && this.name == name && file == []
    {
      this.families := families;
      this.name := name;
      file := [];
    }

    method Emit(run: BackupRun)
      modifies this
      ensures file == Emitted(families, name, old(file), run)
    {
      var time, bytes;
      if run.ok {
        time, bytes := run.now, run.bytes;
      } else {
        time := Captured(Awk(file, families.time.Prefix()));
        bytes := Captured(Awk(file, families.bytes.Prefix()));
      }
      file := Printed(families, name, run.now, run.ok, time, bytes);
    }
  }

  function Emitted(fs: Families, name: string, file: seq<string>, run: BackupRun): seq<string> {
    Printed(fs, name, run.now, run.ok,
            if run.ok then run.now else Captured(Awk(file, fs.time.Prefix())),
            if run.ok then run.bytes else Captured(Awk(file, fs.bytes.Prefix())))
  }

  function FileAfter(fs: Families, name: string, runs: seq<BackupRun>): seq<string> {
    if runs == [] then [] else Emitted(fs, name, FileAfter(fs, name, runs[..|runs| - 1]), runs[|runs| - 1])
  }

  // ---- what a reader of the file should find

  /** The latest successful run, searched from the end. */
  function LatestSuccess(runs: seq<BackupRun>): (r: seq<BackupRun>)
    ensures |r| <= 1
    ensures r == [] <==> forall i :: 0 <= i < |runs| ==> !runs[i].ok
  {
    if runs == [] then []
    else if runs[|runs| - 1].ok then [runs[|runs| - 1]]
    else LatestSuccess(runs[..|runs| - 1])
  }

  function LatestTime(runs: seq<BackupRun>): string {
    var r := LatestSuccess(runs); if r == [] then "" else r[0].now
  }

  function LatestBytes(runs: seq<BackupRun>): string {
    var r := LatestSuccess(runs); if r == [] then "" else r[0].bytes
  }

  ghost predicate AllWords(runs: seq<BackupRun>) {
    forall i :: 0 <= i < |runs| ==> IsWord(runs[i].now) && IsWord(runs[i].bytes)
  }

  /** Awk finds this value, in one line; or, for the empty value, finds no line. */
  predicate Finds(file: seq<string>, prefix: string, value: string) {
    Awk(file, prefix) == if value == "" then [] else [value]
  }

  /** The file carries the time and the bytes of the latest success, and neither line when there was none. */
  ghost predicate Carries(fs: Families, name: string, runs: seq<BackupRun>) {
    && Finds(FileAfter(fs, name, runs), fs.time.Prefix(), LatestTime(runs))
    && Finds(FileAfter(fs, name, runs), fs.bytes.Prefix(), LatestBytes(runs))
  }

  // ---- fields of a printed line

  lemma {:induction false} FirstWordStops(w: string, rest: string)
    requires NoBlank(w) && (rest == "" || IsBlank(rest[0]))
    ensures FirstWord(w + rest) == w
  {
    if w != "" {
      assert (w + rest)[1..] == w[1..] + rest;
      FirstWordStops(w[1..], rest);
    }
  }

  lemma SecondOfTwo(head: string, value: string)
    requires IsWord(head) && IsWord(value)
    ensures SecondField(head + (" " + value)) == value
  {
    var line := head + (" " + value);
    FirstWordStops(head, " " + value);
    assert SkipBlanks(line) == line;
    assert line[|head|..] == " " + value;
    assert (" " + value)[1..] == value;
    assert SkipBlanks(" " + value) == SkipBlanks(value) == value;
    FirstWordStops(value, "");
    assert value + "" == value;
  }

  function Head(f: Family, name: string): string {
    f.Prefix() + "backup=\"" + name + "\"}"
  }

  lemma SampleSplit(f: Family, name: string, value: string)
    ensures f.Sample(name, value) == Head(f, name) + (" " + value)
  {
  }

  lemma HeadIsWord(f: Family, name: string)
    requires NoBlank(f.metric) && NoBlank(name)
    ensures IsWord(Head(f, name))
  {
  }

  /** With a blank-free name the second field is the value. */
  lemma SampleValue(f: Family, name: string, value: string)
    requires NoBlank(f.metric) && NoBlank(name) && IsWord(value)
    ensures SecondField(f.Sample(name, value)) == value
  {
    SampleSplit(f, name, value);
    HeadIsWord(f, name);
    SecondOfTwo(Head(f, name), value);
  }

  // ---- lines that match

  /** Somewhere the two texts differ, so neither is a prefix of anything that starts with the other. */
  ghost predicate Differ(a: string, b: string) {
    exists k :: 0 <= k < |a| && k < |b| && a[k] != b[k]
  }

  /** The name of a family can be printed as one field, and not be taken for a comment. */
  predicate IsName(metric: string) {
    IsWord(metric) && metric[0] != '#'
  }

  /** What reading the file back needs of the texts: blank-free names, none confused with another. */
  ghost predicate Separate(fs: Families) {
    && IsName(fs.time.metric) && IsName(fs.bytes.metric) && IsName(fs.lastRun.metric) && IsName(fs.runSuccess.metric)
    && Differ(fs.time.metric, fs.lastRun.metric) && Differ(fs.time.metric, fs.runSuccess.metric)
    && Differ(fs.bytes.metric, fs.lastRun.metric) && Differ(fs.bytes.metric, fs.runSuccess.metric)
    && Differ(fs.time.metric, fs.bytes.metric) && Differ(fs.lastRun.metric, fs.runSuccess.metric)
  }

  lemma {:induction false} AwkConcat(a: seq<string>, b: seq<string>, prefix: string)
    ensures Awk(a + b, prefix) == Awk(a, prefix) + Awk(b, prefix)
  {
    if a == [] {
      assert a + b == b;
    } else {
      assert (a + b)[1..] == a[1..] + b;
      AwkConcat(a[1..], b, prefix);
    }
  }

  lemma AwkThree(x: string, y: string, z: string, prefix: string)
    requires !(prefix <= x) && !(prefix <= y)
    ensures Awk([x, y, z], prefix) == if prefix <= z then [SecondField(z)] else []
  {
    assert [x, y, z][1..] == [y, z] && [y, z][1..] == [z] && [z][1..] == [];
    assert Awk([y, z], prefix) == Awk([z], prefix);
  }

  lemma NotAComment(f: Family, text: string)
    requires f.metric != "" && f.metric[0] != '#' && text != "" && text[0] == '#'
    ensures !(f.Prefix() <= text)
  {
    assert f.Prefix()[0] == f.metric[0];
  }

  lemma OtherSample(f: Family, other: Family, name: string, value: string)
    requires Differ(f.metric, other.metric)
    ensures !(f.Prefix() <= other.Sample(name, value))
  {
    var k :| 0 <= k < |f.metric| && k < |other.metric| && f.metric[k] != other.metric[k];
    assert f.Prefix()[k] == f.metric[k];
    assert other.Sample(name, value)[k] == other.metric[k];
  }

  lemma OwnSample(f: Family, name: string, value: string)
    ensures f.Prefix() <= f.Sample(name, value)
  {
  }

  lemma OtherLines(f: Family, other: Family, name: string, value: string)
    requires f.metric != "" && f.metric[0] != '#' && Differ(f.metric, other.metric)
    ensures Awk(other.Lines(name, value), f.Prefix()) == []
  {
    var ls := other.Lines(name, value);
    assert ls[0][0] == '#' && ls[1][0] == '#';
    NotAComment(f, ls[0]);
    NotAComment(f, ls[1]);
    OtherSample(f, other, name, value);
    AwkThree(ls[0], ls[1], ls[2], f.Prefix());
  }

  lemma OwnLines(f: Family, name: string, value: string)
    requires f.metric != "" && f.metric[0] != '#'
    ensures Awk(f.Lines(name, value), f.Prefix()) == [SecondField(f.Sample(name, value))]
  {
    var ls := f.Lines(name, value);
    assert ls[0][0] == '#' && ls[1][0] == '#';
    NotAComment(f, ls[0]);
    NotAComment(f, ls[1]);
    OwnSample(f, name, value);
    AwkThree(ls[0], ls[1], ls[2], f.Prefix());
  }

  lemma AwkFour(a: seq<string>, b: seq<string>, c: seq<string>, d: seq<string>, prefix: string)
    requires Awk(a, prefix) == [] && Awk(b, prefix) == []
    ensures Awk(a + b + c + d, prefix) == Awk(c, prefix) + Awk(d, prefix)
  {
    AwkConcat(a + b + c, d, prefix);
    AwkConcat(a + b, c, prefix);
    AwkConcat(a, b, prefix);
  }

  /** What awk finds in a printed file: the second field of the one sample of that family. */
  function Read(f: Family, name: string, value: string): seq<string> {
    if value == "" then [] else [SecondField(f.Sample(name, value))]
  }

  lemma CarriedLines(f: Family, name: string, value: string)
    requires f.metric != "" && f.metric[0] != '#'
    ensures Awk(Carried(f, name, value), f.Prefix()) == Read(f, name, value)
  {
    if value != "" { OwnLines(f, name, value); }
  }

  lemma OtherCarried(f: Family, other: Family, name: string, value: string)
    requires f.metric != "" && f.metric[0] != '#' && Differ(f.metric, other.metric)
    ensures Awk(Carried(other, name, value), f.Prefix()) == []
  {
    if value != "" { OtherLines(f, other, name, value); }
  }

  lemma ReadTime(fs: Families, name: string, now: string, ok: bool, time: string, bytes: string)
    requires Separate(fs)
    ensures Awk(Printed(fs, name, now, ok, time, bytes), fs.time.Prefix()) == Read(fs.time, name, time)
  {
    var flag := if ok then "1" else "0";
    OtherLines(fs.time, fs.lastRun, name, now);
    OtherLines(fs.time, fs.runSuccess, name, flag);
    CarriedLines(fs.time, name, time);
    OtherCarried(fs.time, fs.bytes, name, bytes);
    AwkFour(fs.lastRun.Lines(name, now), fs.runSuccess.Lines(name, flag),
            Carried(fs.time, name, time), Carried(fs.bytes, name, bytes), fs.time.Prefix());
  }

  lemma DifferBack(a: string, b: string)
    requires Differ(a, b)
    ensures Differ(b, a)
  {
    var k :| 0 <= k < |a| && k < |b| && a[k] != b[k];
    assert b[k] != a[k];
  }

  lemma ReadBytes(fs: Families, name: string, now: string, ok: bool, time: string, bytes: string)
    requires Separate(fs)
    ensures Awk(Printed(fs, name, now, ok, time, bytes), fs.bytes.Prefix()) == Read(fs.bytes, name, bytes)
  {
    var flag := if ok then "1" else "0";
    OtherLines(fs.bytes, fs.lastRun, name, now);
    OtherLines(fs.bytes, fs.runSuccess, name, flag);
    DifferBack(fs.time.metric, fs.bytes.metric);
    OtherCarried(fs.bytes, fs.time, name, time);
    CarriedLines(fs.bytes, name, bytes);
    AwkFour(fs.lastRun.Lines(name, now), fs.runSuccess.Lines(name, flag),
            Carried(fs.time, name, time), Carried(fs.bytes, name, bytes), fs.bytes.Prefix());
  }

  lemma AwkAll(a: seq<string>, b: seq<string>, c: seq<string>, d: seq<string>, prefix: string)
    requires Awk(c, prefix) == [] && Awk(d, prefix) == []
    ensures Awk(a + b + c + d, prefix) == Awk(a, prefix) + Awk(b, prefix)
  {
    AwkConcat(a + b + c, d, prefix);
    AwkConcat(a + b, c, prefix);
    AwkConcat(a, b, prefix);
  }

  lemma ReadLastRun(fs: Families, name: string, now: string, ok: bool, time: string, bytes: string)
    requires Separate(fs)
    ensures Awk(Printed(fs, name, now, ok, time, bytes), fs.lastRun.Prefix()) == [SecondField(fs.lastRun.Sample(name, now))]
  {
    var flag, f := if ok then "1" else "0", fs.lastRun;
    DifferBack(fs.time.metric, f.metric);
    DifferBack(fs.bytes.metric, f.metric);
    OwnLines(f, name, now);
    OtherLines(f, fs.runSuccess, name, flag);
    OtherCarried(f, fs.time, name, time);
    OtherCarried(f, fs.bytes, name, bytes);
    AwkAll(f.Lines(name, now), fs.runSuccess.Lines(name, flag),
           Carried(fs.time, name, time), Carried(fs.bytes, name, bytes), f.Prefix());
  }

  lemma ReadRunSuccess(fs: Families, name: string, now: string, ok: bool, time: string, bytes: string)
    requires Separate(fs)
    ensures Awk(Printed(fs, name, now, ok, time, bytes), fs.runSuccess.Prefix())
         == [SecondField(fs.runSuccess.Sample(name, if ok then "1" else "0"))]
  {
    var flag, f := if ok then "1" else "0", fs.runSuccess;
    DifferBack(fs.time.metric, f.metric);
    DifferBack(fs.bytes.metric, f.metric);
    DifferBack(fs.lastRun.metric, f.metric);
    OtherLines(f, fs.lastRun, name, now);
    OwnLines(f, name, flag);
    OtherCarried(f, fs.time, name, time);
    OtherCarried(f, fs.bytes, name, bytes);
    AwkAll(fs.lastRun.Lines(name, now), f.Lines(name, flag),
           Carried(fs.time, name, time), Carried(fs.bytes, name, bytes), f.Prefix());
  }

  lemma FileIsPrinted(fs: Families, name: string, runs: seq<BackupRun>) returns (time: string, bytes: string)
    requires runs != []
    ensures FileAfter(fs, name, runs) == Printed(fs, name, runs[|runs| - 1].now, runs[|runs| - 1].ok, time, bytes)
  {
    var run, file := runs[|runs| - 1], FileAfter(fs, name, runs[..|runs| - 1]);
    time := if run.ok then run.now else Captured(Awk(file, fs.time.Prefix()));
    bytes := if run.ok then run.bytes else Captured(Awk(file, fs.bytes.Prefix()));
  }

  /** Whatever came before, the file reports the latest run: its time, and 1 exactly if it succeeded. */
  lemma LastRunReported(fs: Families, name: string, runs: seq<BackupRun>)
    requires Separate(fs) && NoBlank(name) && runs != [] && IsWord(runs[|runs| - 1].now)
    ensures var file, run := FileAfter(fs, name, runs), runs[|runs| - 1];
            && Awk(file, fs.lastRun.Prefix()) == [run.now]
            && |Awk(file, fs.runSuccess.Prefix())| == 1
            && (Awk(file, fs.runSuccess.Prefix()) == ["1"] <==> run.ok)
            && (Awk(file, fs.runSuccess.Prefix()) == ["0"] <==> !run.ok)
  {
    var run := runs[|runs| - 1];
    var time, bytes := FileIsPrinted(fs, name, runs);
    ReadLastRun(fs, name, run.now, run.ok, time, bytes);
    ReadRunSuccess(fs, name, run.now, run.ok, time, bytes);
    SampleValue(fs.lastRun, name, run.now);
    SampleValue(fs.runSuccess, name, if run.ok then "1" else "0");
  }

  // ---- carry-forward over whole runs

  lemma {:induction false} LatestAreWords(runs: seq<BackupRun>)
    requires AllWords(runs)
    ensures if LatestSuccess(runs) == [] then LatestTime(runs) == LatestBytes(runs) == ""
            else IsWord(LatestTime(runs)) && IsWord(LatestBytes(runs))
  {
    if runs != [] {
      assert IsWord(runs[|runs| - 1].now) && IsWord(runs[|runs| - 1].bytes);
      LatestAreWords(runs[..|runs| - 1]);
    }
  }

  lemma FindsCaptured(file: seq<string>, prefix: string, value: string)
    requires Finds(file, prefix, value)
    ensures Captured(Awk(file, prefix)) == value
  {
  }

  /** If the last file carried the latest success, this run prints from the latest success. */
  lemma PrintedFromLatest(fs: Families, name: string, runs: seq<BackupRun>)
    requires runs != [] && Carries(fs, name, runs[..|runs| - 1])
    ensures FileAfter(fs, name, runs) == Printed(fs, name, runs[|runs| - 1].now, runs[|runs| - 1].ok,
                                                 LatestTime(runs), LatestBytes(runs))
  {
    var before := runs[..|runs| - 1];
    FindsCaptured(FileAfter(fs, name, before), fs.time.Prefix(), LatestTime(before));
    FindsCaptured(FileAfter(fs, name, before), fs.bytes.Prefix(), LatestBytes(before));
  }

  /** With a blank-free name every file is printed from the latest success, and reads back as such. */
  lemma {:induction false} CarriedForward(fs: Families, name: string, runs: seq<BackupRun>)
    requires Separate(fs) && NoBlank(name) && AllWords(runs)
    ensures Carries(fs, name, runs)
  {
    if runs != [] {
      var run := runs[|runs| - 1];
      CarriedForward(fs, name, runs[..|runs| - 1]);
      PrintedFromLatest(fs, name, runs);
      LatestAreWords(runs);
      ReadTime(fs, name, run.now, run.ok, LatestTime(runs), LatestBytes(runs));
      ReadBytes(fs, name, run.now, run.ok, LatestTime(runs), LatestBytes(runs));
      if LatestSuccess(runs) != [] {
        SampleValue(fs.time, name, LatestTime(runs));
        SampleValue(fs.bytes, name, LatestBytes(runs));
      }
    }
  }

  // ---- names with a blank

  lemma {:induction false} FirstWordConcat(s: string, rest: string)
    requires rest == "" || IsBlank(rest[0])
    ensures FirstWord(s + rest) == FirstWord(s)
  {
    if s == "" {
      assert s + rest == rest;
    } else {
      assert (s + rest)[1..] == s[1..] + rest;
      FirstWordConcat(s[1..], rest);
    }
  }

  lemma {:induction false} SkipBlanksConcat(s: string, rest: string)
    requires exists i :: 0 <= i < |s| && !IsBlank(s[i])
    ensures SkipBlanks(s + rest) == SkipBlanks(s) + rest
  {
    if IsBlank(s[0]) {
      assert (s + rest)[1..] == s[1..] + rest;
      var i :| 0 <= i < |s| && !IsBlank(s[i]);
      assert s[1..][i - 1] == s[i];
      SkipBlanksConcat(s[1..], rest);
    }
  }

  /** A blank inside the first text is met before the second one starts. */
  lemma {:induction false} FirstWordInside(s: string, i: nat)
    requires i < |s| && IsBlank(s[i])
    ensures |FirstWord(s)| <= i
  {
    if !IsBlank(s[0]) { FirstWordInside(s[1..], i - 1); }
  }

  /** With a blank inside it, and something after the blank, the first part alone decides the second field. */
  lemma SecondIsInside(head: string, rest: string, i: nat)
    requires head != "" && !IsBlank(head[0]) && i < |head| && IsBlank(head[i]) && !IsBlank(head[|head| - 1])
    requires rest == "" || IsBlank(rest[0])
    ensures SecondField(head + rest) == SecondField(head)
  {
    var line := head + rest;
    FirstWordConcat(head, rest);
    FirstWordInside(head, i);
    var k := |FirstWord(head)|;
    assert line[k..] == head[k..] + rest;
    var tail := head[k..];
    assert tail[|tail| - 1] == head[|head| - 1];
    SkipBlanksConcat(tail, rest);
    FirstWordConcat(SkipBlanks(tail), rest);
  }

  lemma BlankInHead(f: Family, name: string, i: nat)
    requires f.metric != "" && !IsBlank(f.metric[0]) && i < |name| && IsBlank(name[i])
    ensures var h := Head(f, name); var k := |f.metric| + 9 + i;
            h != "" && !IsBlank(h[0]) && k < |h| && IsBlank(h[k]) && !IsBlank(h[|h| - 1])
  {
    var h := Head(f, name);
    assert |f.Prefix() + "backup=\""| == |f.metric| + 9;
    assert h[|f.metric| + 9 + i] == name[i];
    assert h[0] == f.metric[0];
    assert h[|h| - 1] == '}';
  }

  /** With a blank in the name, what is read back does not depend on the value at all. */
  lemma BlankNameHidesValue(f: Family, name: string, value: string)
    requires IsWord(f.metric) && !NoBlank(name)
    ensures SecondField(f.Sample(name, value)) == SecondField(Head(f, name))
  {
    var i :| 0 <= i < |name| && IsBlank(name[i]);
    BlankInHead(f, name, i);
    SampleSplit(f, name, value);
    SecondIsInside(Head(f, name), " " + value, |f.metric| + 9 + i);
  }

  /** So some success is lost: its own file does not give its time back. */
  lemma BlankNameLosesTime(fs: Families, name: string) returns (runs: seq<BackupRun>)
    requires Separate(fs) && !NoBlank(name)
    ensures AllWords(runs) && !Carries(fs, name, runs)
  {
    var time := if SecondField(Head(fs.time, name)) == "0" then "1" else "0";
    runs := [BackupRun(true, time, "0")];
    assert runs[..0] == [];
    BlankNameHidesValue(fs.time, name, time);
    ReadTime(fs, name, time, true, time, "0");
  }

  /** The carry-forward works for every sequence of runs exactly when the name has no blank. */
  lemma NameDecides(fs: Families, name: string)
    requires Separate(fs)
    ensures (forall runs | AllWords(runs) :: Carries(fs, name, runs)) <==> NoBlank(name)
  {
    if NoBlank(name) {
      forall runs | AllWords(runs) ensures Carries(fs, name, runs) { CarriedForward(fs, name, runs); }
    } else {
      var runs := BlankNameLosesTime(fs, name);
    }
  }

  // ---- the script's own texts

  lemma WordConcat(a: string, b: string)
    requires IsWord(a) && NoBlank(b)
    ensures IsWord(a + b)
  {
  }

  /** Texts that share their start and part at the next letter. */
  lemma DifferAfter(start: string, a: string, b: string)
    requires a != "" && b != "" && a[0] != b[0]
    ensures Differ(start + a, start + b)
  {
    assert (start + a)[|start|] == a[0] && (start + b)[|start|] == b[0];
  }

  lemma Words()
    ensures IsWord(LAST) && IsWord(SUCCESS) && IsWord(TIMESTAMP) && IsWord("run_") && IsWord("success") && IsWord("bytes")
  {
  }

  lemma IsNameAfter(rest: string)
    requires NoBlank(rest)
    ensures IsName(LAST + rest)
  {
    Words();
    WordConcat(LAST, rest);
    assert (LAST + rest)[0] == LAST[0] == 'z';
  }

  lemma RunFamiliesDiffer()
    ensures Differ(LAST + ("run_" + TIMESTAMP), LAST + ("run_" + "success"))
  {
    DifferAfter(LAST + "run_", TIMESTAMP, "success");
    assert LAST + ("run_" + TIMESTAMP) == LAST + "run_" + TIMESTAMP;
    assert LAST + ("run_" + "success") == LAST + "run_" + "success";
  }

  lemma TimeAndBytes()
    ensures Differ(LAST + (SUCCESS + TIMESTAMP), LAST + (SUCCESS + "bytes"))
  {
    DifferAfter(LAST + SUCCESS, TIMESTAMP, "bytes");
    assert LAST + (SUCCESS + TIMESTAMP) == LAST + SUCCESS + TIMESTAMP;
    assert LAST + (SUCCESS + "bytes") == LAST + SUCCESS + "bytes";
  }

  lemma SuccessAndRun(rest: string, other: string)
    ensures Differ(LAST + (SUCCESS + rest), LAST + ("run_" + other))
  {
    DifferAfter(LAST, SUCCESS + rest, "run_" + other);
  }

  /** The script's own texts are such: they part after `last_`, or after `success_`. */
  lemma ScriptIsSeparate()
    ensures Separate(SCRIPT)
  {
    Words();
    WordConcat(SUCCESS, TIMESTAMP);
    WordConcat(SUCCESS, "bytes");
    WordConcat("run_", TIMESTAMP);
    WordConcat("run_", "success");
    IsNameAfter(SUCCESS + TIMESTAMP);
    IsNameAfter(SUCCESS + "bytes");
    IsNameAfter("run_" + TIMESTAMP);
    IsNameAfter("run_" + "success");
    RunFamiliesDiffer();
    TimeAndBytes();
    SuccessAndRun(TIMESTAMP, TIMESTAMP);
    SuccessAndRun(TIMESTAMP, "success");
    SuccessAndRun("bytes", TIMESTAMP);
    SuccessAndRun("bytes", "success");
  }
}
