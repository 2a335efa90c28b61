/** Job directory paths: `get_job_path` and `get_job_file_path` are string
    building, `cwd.rstrip('/') + '/' + job_id` and `job_path + '/' + name`. */
module Paths {
  import opened Wrappers
  import opened Seqs

  /** `s.rstrip(c)`: `s` without its trailing run of `c`. */
  function RStrip(s: string, c: char): (r: string)
    ensures IsPrefix(r, s)
    ensures r == [] || r[|r| - 1] != c
    ensures forall i :: |r| <= i < |s| ==> s[i] == c
  {
    if s == [] || s[|s| - 1] != c then s else RStrip(s[..|s| - 1], c)
  }

  /** The base directory: the command's `cwd`, or the process-wide default
      when `cwd` is missing, null or empty (all three read as ""). */
  function BaseDir(cwd: string, defaultWorkdir: string): string {
    if cwd != "" then cwd else defaultWorkdir
  }

  /** What an f-string prints for the job id: "None" outside a job. */
  function JobIdText(jobId: Option<string>): string {
    if jobId.Some? then jobId.value else "None"
  }

  function JobPath(cwd: string, defaultWorkdir: string, jobId: Option<string>): string {
    RStrip(BaseDir(cwd, defaultWorkdir), '/') + "/" + JobIdText(jobId)
  }

  function JobFilePath(jobPath: string, filename: string): string {
    jobPath + "/" + filename
  }

  /** `p` lies inside the directory `dir`, as strings: `p` starts with
      `dir/`. Segments such as `..` are not resolved. */
  predicate Under(p: string, dir: string) {
    IsPrefix(dir + "/", p)
  }

  lemma JobFileIsUnder(jobPath: string, filename: string)
    ensures Under(JobFilePath(jobPath, filename), jobPath)
  {
    assert JobFilePath(jobPath, filename)[..|jobPath| + 1] == jobPath + "/";
  }

  /** Trailing slashes on `cwd` do not change the job path. */
  lemma {:induction false} TrailingSlashIgnored(cwd: string, defaultWorkdir: string, jobId: Option<string>)
    requires cwd != ""
    ensures JobPath(cwd + "/", defaultWorkdir, jobId) == JobPath(cwd, defaultWorkdir, jobId)
  {
    var s := cwd + "/";
    assert s[..|s| - 1] == cwd;
  }

  /** The job path ends in `/<job id>` after the stripped base directory, so
      the id can be read back from it. */
  lemma JobPathEndsWithId(cwd: string, defaultWorkdir: string, id: string)
    ensures var p := JobPath(cwd, defaultWorkdir, Some(id));
      var base := RStrip(BaseDir(cwd, defaultWorkdir), '/');
      IsPrefix(base + "/", p) && p[|base| + 1..] == id
  {
    var p := JobPath(cwd, defaultWorkdir, Some(id));
    var base := RStrip(BaseDir(cwd, defaultWorkdir), '/');
    assert p == (base + "/") + id;
    assert p[..|base| + 1] == base + "/";
  }

  /** Distinct job ids under the same configuration give distinct job
      directories, and, for ids without `/` (as uuid4 strings are), no path
      lies inside both: concurrent runs never share a file. */
  lemma JobDirsDisjoint(cwd: string, defaultWorkdir: string, a: string, b: string, p: string)
    requires a != b && '/' !in a && '/' !in b
    ensures JobPath(cwd, defaultWorkdir, Some(a)) != JobPath(cwd, defaultWorkdir, Some(b))
    ensures !(Under(p, JobPath(cwd, defaultWorkdir, Some(a))) && Under(p, JobPath(cwd, defaultWorkdir, Some(b))))
  {
    var base := RStrip(BaseDir(cwd, defaultWorkdir), '/') + "/";
    var pa, pb := JobPath(cwd, defaultWorkdir, Some(a)), JobPath(cwd, defaultWorkdir, Some(b));
    assert pa == base + a && pb == base + b;
    assert pa[|base|..] == a && pb[|base|..] == b;
    assert pa + "/" == base + a + "/" && pb + "/" == base + b + "/";
    if |a| <= |b| {
      SiblingNotPrefix(base, a, b);
      CommonPrefix(pa + "/", pb + "/", p);
    } else {
      SiblingNotPrefix(base, b, a);
      CommonPrefix(pb + "/", pa + "/", p);
    }
  }

  /** Two prefixes of the same sequence: the shorter is a prefix of the longer. */
  lemma CommonPrefix(x: string, y: string, p: string)
    requires |x| <= |y|
    ensures IsPrefix(x, p) && IsPrefix(y, p) ==> IsPrefix(x, y)
  {
    if IsPrefix(x, p) && IsPrefix(y, p) {
      assert y[..|x|] == p[..|y|][..|x|] == p[..|x|];
    }
  }

  lemma SiblingNotPrefix(base: string, a: string, b: string)
    requires a != b && '/' !in a && '/' !in b && |a| <= |b|
    ensures !IsPrefix(base + a + "/", base + b + "/")
  {
    var x, y := base + a + "/", base + b + "/";
    var k := |base| + |a|;
    assert x[k] == '/';
    if |a| < |b| {
      assert y[k] == b[|a|];
      assert b[|a|] in b;
    } else {
      assert x[|base|..k] == a;
      assert y[|base|..k] == b;
    }
  }
}
