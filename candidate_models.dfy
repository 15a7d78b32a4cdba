/** The stored candidate record of the back end (`CandidateResume`), its
    field defaults, its string form and the storage path of its resume file. */
module CandidateModels {
  import opened Common
  import opened Text

  /** A row of the candidate table. `jobId` stands for the foreign key to the
      job; nullable columns are options. */
  datatype CandidateResume = CandidateResume(
    id: int,
    jobId: nat,
    candidateName: Option<string>,
    candidateEmail: Option<string>,
    extractedSkills: seq<string>,
    projectsFound: seq<string>,
    education: string,
    aiScore: int,
    strengths: seq<string>,
    weaknesses: seq<string>,
    shortlisted: bool)

  const UploadRoot: string := "candidates/job_"

  /** Where a resume uploaded for job `jobId` under `filename` is stored. */
  function ResumeUploadPath(jobId: nat, filename: string): (path: string)
    ensures StartsWith(path, UploadRoot)
    ensures EndsWith(path, "/" + filename)
  {
    var r := UploadRoot + NatToString(jobId) + "/" + filename;
    assert r[|r| - |"/" + filename|..] == "/" + filename;
    r
  }

  /** Reads a storage path back into its job id and file name: the job id is
      the run of digits after the root, up to the first '/'. */
  function ParseUploadPath(path: string): Option<(nat, string)> {
    if !StartsWith(path, UploadRoot) then None
    else
      var rest := path[|UploadRoot|..];
      var k := DigitRun(rest);
      if k < |rest| && rest[k] == '/' && k >= 1 then
        Some((DigitsValue(rest[..k]), rest[k + 1..]))
      else None
  }

  /** Length of the run of ASCII digits at the start of `s`. */
  function DigitRun(s: string): (k: nat)
    ensures k <= |s|
    ensures forall i :: 0 <= i < k ==> '0' <= s[i] <= '9'
    ensures k < |s| ==> !('0' <= s[k] <= '9')
  {
    if s != [] && '0' <= s[0] <= '9' then 1 + DigitRun(s[1..]) else 0
  }

  lemma {:induction false} DigitRunOf(d: string, t: string)
    requires forall i :: 0 <= i < |d| ==> '0' <= d[i] <= '9'
    requires t != [] && !('0' <= t[0] <= '9')
    ensures DigitRun(d + t) == |d|
  {
    if d != [] {
      assert (d + t)[1..] == d[1..] + t;
      DigitRunOf(d[1..], t);
    } else {
      assert d + t == t;
    }
  }

  /** The storage path determines the job and the file name: two uploads get
      the same path only if they are for the same job under the same name. */
  lemma UploadPathRoundTrip(jobId: nat, filename: string)
    ensures ParseUploadPath(ResumeUploadPath(jobId, filename)) == Some((jobId, filename))
  {
    var path := ResumeUploadPath(jobId, filename);
    var digits := NatToString(jobId);
    var rest := path[|UploadRoot|..];
    assert rest == digits + ("/" + filename);
    DigitRunOf(digits, "/" + filename);
    assert rest[..|digits|] == digits;
    assert rest[|digits| + 1..] == filename;
    ParseNatToString(jobId);
  }

  /** A freshly created record: every column left to its declared default. */
  function NewCandidateResume(id: int, jobId: nat): (c: CandidateResume)
    ensures c.aiScore == 0 && !c.shortlisted
    ensures c.extractedSkills == [] && c.projectsFound == [] && c.strengths == [] && c.weaknesses == []
    ensures c.candidateName.None? && c.candidateEmail.None? && c.education == ""
  {
    CandidateResume(id, jobId, None, None, [], [], "", 0, [], [], false)
  }

  /** The name shown for a record, `candidate_name or 'Unknown'`. */
  function DisplayName(c: CandidateResume): (n: string)
    ensures n != ""
  {
    match c.candidateName
    case Some(s) => if s != "" then s else "Unknown"
    case None => "Unknown"
  }

  /** `str(candidate)`: "{name or 'Unknown'} - Job {job id}". */
  function CandidateToString(c: CandidateResume): (r: string)
    ensures StartsWith(r, DisplayName(c))
    ensures EndsWith(r, " - Job " + NatToString(c.jobId))
    ensures |r| == |DisplayName(c)| + |" - Job " + NatToString(c.jobId)|
  {
    var r := DisplayName(c) + " - Job " + NatToString(c.jobId);
    assert r[..|DisplayName(c)|] == DisplayName(c);
    assert r[|r| - |" - Job " + NatToString(c.jobId)|..] == " - Job " + NatToString(c.jobId);
    r
  }

  /** A stored name is shown as it is; a missing or empty one as "Unknown". */
  lemma DisplayNameCases(c: CandidateResume)
    ensures c.candidateName.Some? && c.candidateName.value != "" ==> DisplayName(c) == c.candidateName.value
    ensures c.candidateName == None || c.candidateName == Some("") ==> DisplayName(c) == "Unknown"
  {
  }
}
