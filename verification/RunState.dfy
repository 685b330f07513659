/** The run records in the data dir: the outcome of each job's last run, one file a job. */
module RunState {
  import opened Texts
  import Globs

  datatype Status = Success | Warning | Error

  /** Points in time are microseconds of UTC. */
  datatype RunRecord = RunRecord(job: string, sid: string, status: Status, at: int)

  /** A file of the `.state` directory, as far as it can be read as a run record. */
  datatype Content = Parsed(record: RunRecord) | Unreadable

  type Files = map<string, Content>

  const JOB_PREFIX := "job-"
  const JSON_SUFFIX := ".json"

  predicate IsSafe(c: char) {
    'A' <= c <= 'Z' || 'a' <= c <= 'z' || '0' <= c <= '9' || c == '.' || c == '_' || c == '-'
  }

  function Safe(name: string): (r: string)
    ensures |r| == |name|
    ensures forall i :: 0 <= i < |name| ==> r[i] == if IsSafe(name[i]) then name[i] else '_'
  {
    if name == "" then "" else [if IsSafe(name[0]) then name[0] else '_'] + Safe(name[1..])
  }

  /** `_job_file` */
  function JobFile(job: string): string {
    JOB_PREFIX + Stem(job) + JSON_SUFFIX
  }

  function Stem(job: string): string {
    if job == "" then "_" else Safe(job)
  }

  predicate IsRecordFile(name: string) {
    JOB_PREFIX <= name && |JSON_SUFFIX| <= |name| && name[|name| - |JSON_SUFFIX|..] == JSON_SUFFIX
  }

  /** Every record stands in its own job's file. */
  ghost predicate InPlace(files: Files) {
    forall f :: f in files && files[f].Parsed? ==> JobFile(files[f].record.job) == f
  }

  /** `r` is a record that can be read. */
  ghost predicate IsRecord(files: Files, r: RunRecord) {
    exists f :: f in files && IsRecordFile(f) && files[f] == Parsed(r)
  }

  class StateDir {
    var files: Files

    constructor ()
      ensures files == map[]
    {
      files := map[];
    }

    /** `record_run`; a write that fails leaves the file as it was. */
    method RecordRun(record: RunRecord, written: bool)
      modifies this
      ensures files == if written then old(files)[JobFile(record.job) := Parsed(record)] else old(files)
      ensures old(InPlace(files)) ==> InPlace(files)
    {
      if written {
        files := files[JobFile(record.job) := Parsed(record)];
      }
    }

    /** `read_runs`: every record that can be read, once for its file. */
    method ReadRuns() returns (runs: seq<RunRecord>)
      ensures forall r :: r in runs <==> IsRecord(files, r)
    {
      runs := [];
      var rest := files.Keys;
      while rest != {}
        invariant rest <= files.Keys
        invariant forall r :: r in runs <==>
          exists f :: f in files && f !in rest && IsRecordFile(f) && files[f] == Parsed(r)
        decreases |rest|
      {
        var f :| f in rest;
        rest := rest - {f};
        if IsRecordFile(f) && files[f].Parsed? {
          runs := runs + [files[f].record];
        }
      }
    }
  }

  lemma JobFileIsRecordFile(job: string)
    ensures IsRecordFile(JobFile(job))
  {
  }

  /** What a file name keeps of a job's name. */
  const FILE_CHARS := CAPITALS + LETTERS + DIGITS + "._-"

  lemma KeptExactly(c: char)
    ensures IsSafe(c) <==> c in FILE_CHARS
  {
    AlphabetIs(c);
  }

  /** The file of a job: its name with an underscore for each other character, between prefix and suffix. */
  lemma JobFileIs(job: string) returns (stem: string)
    ensures JobFile(job) == "job-" + stem + ".json"
    ensures job == "" ==> stem == "_"
    ensures job != "" ==>
      |stem| == |job| && forall i :: 0 <= i < |job| ==> stem[i] == if job[i] in FILE_CHARS then job[i] else '_'
  {
    stem := Stem(job);
    forall i | 0 <= i < |job| ensures IsSafe(job[i]) <==> job[i] in FILE_CHARS {
      KeptExactly(job[i]);
    }
  }

  /** The files that are read as records are those the glob finds. */
  lemma RecordFilesExactly(name: string, charset: Globs.Charset)
    ensures IsRecordFile(name) <==> Globs.Fnmatch(name, "job-*.json", charset)
  {
    assert "job-*.json" == "job-" + "*" + ".json";
    Globs.OneStarMatchesExactly(name, "job-", ".json", charset);
    if IsRecordFile(name) {
      PrefixBeforeSuffix(name);
    }
    LikeItself(name[..if |name| < 4 then |name| else 4], "job-");
    LikeItself(name[if |name| < 5 then 0 else |name| - 5..], ".json");
  }

  lemma LikeItself(s: string, p: string)
    requires '?' !in p
    ensures Globs.IsLike(s, p) <==> s == p
  {
    if Globs.IsLike(s, p) {
      forall i | 0 <= i < |p| ensures s[i] == p[i] {
        assert p[i] in p;
      }
    }
  }

  /** The prefix and the suffix do not overlap. */
  lemma PrefixBeforeSuffix(name: string)
    requires IsRecordFile(name)
    ensures |name| >= 9
  {
    var n := |name|;
    assert name[n - 5..][0] == '.' && name[n - 5] == '.';
    assert name[0] == 'j' && name[1] == 'o' && name[2] == 'b' && name[3] == '-';
  }

  // ---- Whose file is whose ----

  /** Two jobs share a record file exactly if their names differ only in characters no file name takes, `_` included. */
  ghost predicate SafelyEqual(a: string, b: string) {
    |a| == |b| && forall i :: 0 <= i < |a| ==> a[i] == b[i] || (Replaced(a[i]) && Replaced(b[i]))
  }

  predicate Replaced(c: char) {
    !IsSafe(c) || c == '_'
  }

  predicate IsBlank(name: string) {
    name == "" || (|name| == 1 && Replaced(name[0]))
  }

  lemma SharedFileExactly(a: string, b: string)
    ensures JobFile(a) == JobFile(b) <==> SafelyEqual(a, b) || (IsBlank(a) && IsBlank(b))
  {
    SameMiddle(Stem(a), Stem(b));
    SameSafe(a, b);
    assert IsBlank(a) <==> Stem(a) == "_";
    assert IsBlank(b) <==> Stem(b) == "_";
  }

  lemma SameSafe(a: string, b: string)
    ensures Safe(a) == Safe(b) <==> SafelyEqual(a, b)
  {
    if Safe(a) == Safe(b) {
      forall i | 0 <= i < |a| ensures a[i] == b[i] || (Replaced(a[i]) && Replaced(b[i])) {
        assert Safe(a)[i] == Safe(b)[i];
      }
    }
  }

  lemma SameMiddle(x: string, y: string)
    ensures JOB_PREFIX + x + JSON_SUFFIX == JOB_PREFIX + y + JSON_SUFFIX <==> x == y
  {
    var p, q := JOB_PREFIX + x + JSON_SUFFIX, JOB_PREFIX + y + JSON_SUFFIX;
    assert p[|JOB_PREFIX|..|p| - |JSON_SUFFIX|] == x && q[|JOB_PREFIX|..|q| - |JSON_SUFFIX|] == y;
  }

  /** What stands in the files after several runs have been recorded. */
  function RecordAll(files: Files, records: seq<RunRecord>): Files
    decreases |records|
  {
    if records == [] then files else RecordAll(files[JobFile(records[0].job) := Parsed(records[0])], records[1..])
  }

  /** Whatever jobs with other record files record, a job's file stays as it is. */
  lemma {:induction false} OthersKeepFile(files: Files, records: seq<RunRecord>, job: string)
    requires JobFile(job) in files && InPlace(files)
    requires forall r :: r in records ==> JobFile(r.job) != JobFile(job)
    ensures JobFile(job) in RecordAll(files, records) && InPlace(RecordAll(files, records))
    ensures RecordAll(files, records)[JobFile(job)] == files[JobFile(job)]
    decreases |records|
  {
    if records != [] {
      assert records[0] in records;
      OthersKeepFile(files[JobFile(records[0].job) := Parsed(records[0])], records[1..], job);
    }
  }
}
