/** The job page: for the selected job it holds the candidate roster (sorted
    by score, highest first), a shortlist map from candidate id to flag, the
    ids ticked in the table, the resumes waiting to be evaluated and the email
    compose form. Each handler runs to its next `await` atomically; the
    awaited request's outcome is a parameter. */
module JobsTab {
  import opened Common
  import opened Text
  import opened Roster

  datatype Tab = Info | Resumes | Scores | ShortlistedTab

  /** A resume picked for upload, listed under its name up to the first dot. */
  datatype PendingUpload = PendingUpload(name: string, file: File)

  /** The search box and the two filter drop-downs. `minScore` is None while
      "All Scores" is chosen; otherwise it is the chosen option's value. */
  datatype FilterState = FilterState(query: string, experience: string, minScore: Option<int>)

  /** The multipart body of an evaluation request. */
  datatype EvaluationRequest = EvaluationRequest(resumes: seq<File>, jobId: nat)

  /** The body of one shortlist request: `POST /candidates/shortlist/<id>/`. */
  datatype ShortlistRequest = ShortlistRequest(id: int, shortlisted: bool)

  /** The body of the final email request. */
  datatype EmailRequest = EmailRequest(form: MailForm, attachments: seq<File>)

  // ---------------------------------------------------------------------
  // Pure projections
  // ---------------------------------------------------------------------

  /** `file.name.split(".")[0]`. */
  function BaseName(name: string): (r: string)
    ensures StartsWith(name, r)
    ensures '.' !in r
    ensures r == name || name[|r|] == '.'
  {
    if name == [] || name[0] == '.' then []
    else [name[0]] + BaseName(name[1..])
  }

  function ToPending(f: File): PendingUpload {
    PendingUpload(BaseName(f.name), f)
  }

  function FileOf(p: PendingUpload): File { p.file }

  /** One row passes the search box and both filters. */
  predicate Matches(c: Candidate, f: FilterState) {
    var q := ToLower(f.query);
    && (q == "" || Contains(ToLower(c.name), q) || Contains(ToLower(c.email.GetOr("")), q))
    && (f.experience == "" || c.experienceLevel == f.experience)
    && (f.minScore.None? || c.score >= f.minScore.value)
  }

  function Matching(f: FilterState): Candidate -> bool {
    (c: Candidate) => Matches(c, f)
  }

  /** `filteredCandidates`: the rows shown in the scores table. */
  function Filtered(cands: seq<Candidate>, f: FilterState): (r: seq<Candidate>)
    ensures IsSubsequence(r, cands)
    ensures forall i :: 0 <= i < |r| ==> r[i] in cands && Matches(r[i], f)
    ensures forall i :: 0 <= i < |cands| && Matches(cands[i], f) ==> cands[i] in r
  {
    FilterIsSubsequence(cands, Matching(f));
    FilterMembers(cands, Matching(f));
    Filter(cands, Matching(f))
  }

  /** The shortlisted tab: the filtered rows whose map entry is truthy. */
  function ShortlistedRows(cands: seq<Candidate>, f: FilterState, m: map<int, Flag>): (r: seq<Candidate>)
    ensures IsSubsequence(r, cands)
    ensures forall i :: 0 <= i < |r| ==> r[i] in cands && Matches(r[i], f) && Marked(m, r[i].id)
    ensures forall i :: 0 <= i < |cands| && Matches(cands[i], f) && Marked(m, cands[i].id) ==> cands[i] in r
  {
    var shown := Filtered(cands, f);
    var r := ShortlistedOf(shown, m);
    SubsequenceTrans(r, shown, cands);
    forall i | 0 <= i < |cands| && Matches(cands[i], f) && Marked(m, cands[i].id) ensures cands[i] in r {
      var j :| 0 <= j < |shown| && shown[j] == cands[i];
    }
    r
  }

  /** `g` sets every filter `f` sets to the same value (a higher score
      threshold for the score filter) and possibly more. */
  predicate Stricter(g: FilterState, f: FilterState) {
    && (f.query == "" || g.query == f.query)
    && (f.experience == "" || g.experience == f.experience)
    && (f.minScore.None? || (g.minScore.Some? && g.minScore.value >= f.minScore.value))
  }

  /** Setting another filter, or raising the score threshold, never shows a
      row that was hidden: the rows shown are a subsequence of the rows shown
      before. */
  lemma FilterNarrowing(cands: seq<Candidate>, f: FilterState, g: FilterState)
    requires Stricter(g, f)
    ensures IsSubsequence(Filtered(cands, g), Filtered(cands, f))
    ensures |Filtered(cands, g)| <= |Filtered(cands, f)|
  {
    forall i | 0 <= i < |cands| && Matching(g)(cands[i]) ensures Matching(f)(cands[i]) {
      if ToLower(f.query) != "" {
        assert f.query != "";
      }
    }
    FilterNarrows(cands, Matching(g), Matching(f));
  }

  /** With no search text and no filter every row is shown, in roster order. */
  lemma NoFilterShowsAll(cands: seq<Candidate>)
    ensures Filtered(cands, FilterState("", "", None)) == cands
  {
    FilterAll(cands, Matching(FilterState("", "", None)));
  }

  function IdOf(c: Candidate): int { c.id }

  /** The header checkbox's `checked` test as written: a length comparison. */
  predicate SelectAllChecked(filtered: seq<Candidate>, sel: seq<int>) {
    |filtered| > 0 && |sel| == |filtered|
  }

  /** What the header checkbox evidently means: every shown row is ticked. */
  predicate AllShownSelected(filtered: seq<Candidate>, sel: seq<int>) {
    |filtered| > 0 && forall i :: 0 <= i < |filtered| ==> filtered[i].id in sel
  }

  /** The length test reports "all selected" for a selection that contains
      none of the shown rows. */
  lemma SelectAllLengthTestCounterexample()
    ensures var shown := [Candidate(1, "Ann", None, 90, "", Undefined)];
            SelectAllChecked(shown, [2]) && !AllShownSelected(shown, [2])
  {
    var shown := [Candidate(1, "Ann", None, 90, "", Undefined)];
    assert shown[0].id == 1 && 1 !in [2];
  }

  /** After the header box selects the shown rows, both tests agree that all
      are selected. */
  lemma SelectAllThenChecked(filtered: seq<Candidate>)
    requires |filtered| > 0
    ensures SelectAllChecked(filtered, Map(filtered, IdOf))
    ensures AllShownSelected(filtered, Map(filtered, IdOf))
  {
    forall i | 0 <= i < |filtered| ensures filtered[i].id in Map(filtered, IdOf) {
      assert Map(filtered, IdOf)[i] == filtered[i].id;
    }
  }

  /** Without duplicate ids among the shown rows and in the selection, and
      with the selection inside the shown rows, the length test is exact. */
  lemma SelectAllExactWhenInside(filtered: seq<Candidate>, sel: seq<int>)
    requires NoDup(Map(filtered, IdOf)) && NoDup(sel)
    requires forall x :: x in sel ==> x in Map(filtered, IdOf)
    ensures SelectAllChecked(filtered, sel) <==> AllShownSelected(filtered, sel)
  {
    var ids := Map(filtered, IdOf);
    NoDupCard(sel);
    NoDupCard(ids);
    assert Elements(sel) <= Elements(ids);
    if |sel| == |filtered| {
      SubsetEqualCard(Elements(sel), Elements(ids));
      forall i | 0 <= i < |filtered| ensures filtered[i].id in sel {
        assert ids[i] in Elements(ids);
      }
    }
    if AllShownSelected(filtered, sel) {
      forall x | x in Elements(ids) ensures x in Elements(sel) {
        var i :| 0 <= i < |ids| && ids[i] == x;
        assert filtered[i].id == x;
      }
      assert Elements(ids) == Elements(sel);
    }
  }

  function Elements(s: seq<int>): set<int> {
    set x | x in s
  }

  lemma {:induction false} NoDupCard(s: seq<int>)
    requires NoDup(s)
    ensures |Elements(s)| == |s|
  {
    if s != [] {
      var t := s[1..];
      assert NoDup(t);
      NoDupCard(t);
      assert s[0] !in t;
      assert Elements(s) == Elements(t) + {s[0]};
    } else {
      assert Elements(s) == {};
    }
  }

  lemma SubsetEqualCard(a: set<int>, b: set<int>)
    requires a <= b && |a| == |b|
    ensures a == b
  {
    assert b == a + (b - a);
    assert a * (b - a) == {};
    assert |b| == |a| + |b - a|;
    assert |b - a| == 0;
    assert b - a == {};
  }

  datatype Band = Red | Yellow | Green | Blue

  /** Badge colour of a score in the scores table: up to 40 red, up to 70
      yellow, above 70 green. */
  function ScoreBand(score: int): (b: Band)
    ensures b == Red <==> score <= 40
    ensures b == Yellow <==> 40 < score <= 70
    ensures b == Green <==> score > 70
  {
    if score <= 40 then Red else if score <= 70 then Yellow else Green
  }

  /** Badge colour in the shortlisted table: 85 and up green, 70 and up blue,
      otherwise yellow. */
  function ShortlistBand(score: int): (b: Band)
    ensures b == Green <==> score >= 85
    ensures b == Blue <==> 70 <= score < 85
    ensures b == Yellow <==> score < 70
  {
    if score >= 85 then Green else if score >= 70 then Blue else Yellow
  }

  function BandRank(b: Band): nat {
    match b
    case Red => 0
    case Yellow => 1
    case Blue => 2
    case Green => 3
  }

  /** A higher score never gets a lower badge in either table; the tables
      disagree on scores 70 (yellow, then blue) and 71 to 84 (green, then blue). */
  lemma BandsMonotone(s: int, t: int)
    requires s <= t
    ensures BandRank(ScoreBand(s)) <= BandRank(ScoreBand(t))
    ensures BandRank(ShortlistBand(s)) <= BandRank(ShortlistBand(t))
  {
  }

  /** `newShortlist[id] = !newShortlist[id]`. */
  function FlipOne(m: map<int, Flag>, id: int): map<int, Flag> {
    m[id := Bool(!Marked(m, id))]
  }

  /** The map after the `forEach` over the selection, in selection order. */
  function FlipAll(m: map<int, Flag>, ids: seq<int>): map<int, Flag> {
    if ids == [] then m else FlipOne(FlipAll(m, ids[..|ids| - 1]), ids[|ids| - 1])
  }

  /** Each selected id's entry becomes the negation of its old truthiness (a
      missing entry becomes true); every other entry is untouched. */
  lemma {:induction false} FlipAllEffect(m: map<int, Flag>, ids: seq<int>)
    requires NoDup(ids)
    ensures FlipAll(m, ids).Keys == m.Keys + set x | x in ids
    ensures forall x :: x in ids ==> FlipAll(m, ids)[x] == Bool(!Marked(m, x))
    ensures forall x :: x !in ids && x in m ==> FlipAll(m, ids)[x] == m[x]
  {
    if ids != [] {
      var init, last := ids[..|ids| - 1], ids[|ids| - 1];
      assert NoDup(init);
      FlipAllEffect(m, init);
      assert last !in init;
      assert forall x :: x in ids <==> x in init || x == last;
    }
  }

  /** Flipping the same selection twice restores every entry's truthiness. */
  lemma FlipTwice(m: map<int, Flag>, ids: seq<int>, x: int)
    requires NoDup(ids)
    ensures Marked(FlipAll(FlipAll(m, ids), ids), x) == Marked(m, x)
  {
    FlipAllEffect(m, ids);
    FlipAllEffect(FlipAll(m, ids), ids);
  }

  /** Index of the first failed request; the length when none failed. */
  function FirstFailure(outcomes: seq<bool>): (k: nat)
    ensures k <= |outcomes|
    ensures forall i :: 0 <= i < k ==> outcomes[i]
    ensures k < |outcomes| ==> !outcomes[k]
  {
    if outcomes == [] || !outcomes[0] then 0 else 1 + FirstFailure(outcomes[1..])
  }

  /** Number of requests a sequential loop issues when it stops at the first
      thrown error: all of them, or up to and including the failing one. */
  function Attempts(outcomes: seq<bool>): (n: nat)
    ensures n <= |outcomes|
    ensures outcomes != [] ==> n >= 1
    ensures n == |outcomes| <==> forall i :: 0 <= i < |outcomes| - 1 ==> outcomes[i]
    ensures FirstFailure(outcomes) < |outcomes| ==> n == FirstFailure(outcomes) + 1
    ensures FirstFailure(outcomes) == |outcomes| ==> n == |outcomes|
  {
    var k := FirstFailure(outcomes);
    if k < |outcomes| then k + 1 else k
  }

  function EmailOf(c: Candidate): string { c.email.GetOr("") }

  /** The addresses put in "to": those of truthily shortlisted candidates, in
      roster order (a null address joins as the empty string). */
  function Recipients(cands: seq<Candidate>, m: map<int, Flag>): (r: seq<string>)
    ensures |r| == |ShortlistedOf(cands, m)|
    ensures forall i :: 0 <= i < |r| ==> r[i] == EmailOf(ShortlistedOf(cands, m)[i])
  {
    Map(ShortlistedOf(cands, m), EmailOf)
  }

  // ---------------------------------------------------------------------
  // The page state and its handlers
  // ---------------------------------------------------------------------

  class JobsPage {
    var selectedJob: Option<Job>
    var activeTab: Tab
    var candidates: seq<Candidate>
    var uploadedFiles: seq<PendingUpload>
    var selectedResumes: seq<int>
    var shortlisted: map<int, Flag>
    var emailModalOpen: bool
    var emailForm: MailForm
    var emailAttachments: seq<File>

    constructor ()
      ensures selectedJob == None && activeTab == Info
      ensures candidates == [] && uploadedFiles == [] && selectedResumes == [] && shortlisted == map[]
      ensures !emailModalOpen && emailForm == MailForm("", "", "", "", "") && emailAttachments == []
    {
      selectedJob := None;
      activeTab := Info;
      candidates := [];
      uploadedFiles := [];
      selectedResumes := [];
      shortlisted := map[];
      emailModalOpen := false;
      emailForm := MailForm("", "", "", "", "");
      emailAttachments := [];
    }

    /** `handleSelectJob` up to its `await`: every per-job container is
        emptied before the roster is requested for `job.id`. */
    method BeginSelectJob(job: Job) returns (fetchFor: nat)
      modifies this`selectedJob, this`activeTab, this`candidates, this`uploadedFiles,
               this`selectedResumes, this`shortlisted
      ensures fetchFor == job.id
      ensures selectedJob == Some(job) && activeTab == Info
      ensures candidates == [] && uploadedFiles == [] && selectedResumes == [] && shortlisted == map[]
    {
      selectedJob := Some(job);
      activeTab := Info;
      candidates := [];
      uploadedFiles := [];
      selectedResumes := [];
      shortlisted := map[];
      fetchFor := job.id;
    }

    /** `handleSelectJob` after its `await`. The response is installed
        whichever job is selected by then: nothing discards a stale one. */
    method FinishSelectJob(response: Outcome<seq<Candidate>>)
      modifies this`candidates, this`shortlisted
      ensures response.Done? ==> candidates == SortByScore(response.value)
      ensures response.Done? ==> shortlisted == FlagMap(candidates, AsSent)
      ensures response.Failed? ==> candidates == [] && shortlisted == old(shortlisted)
    {
      match response
      case Done(cands) =>
        var sorted := SortByScore(cands);
        candidates := sorted;
        shortlisted := BuildFlagMap(sorted, AsSent);
      case Failed =>
        candidates := [];
    }

    /** `handleFileUpload`: without a selected job only an alert; otherwise the
        picked files go in front of the pending list, with no type check. */
    method FileUpload(files: seq<File>) returns (alerted: bool)
      modifies this`uploadedFiles
      ensures alerted <==> selectedJob.None?
      ensures uploadedFiles == if alerted then old(uploadedFiles) else Map(files, ToPending) + old(uploadedFiles)
    {
      if selectedJob.None? {
        alerted := true;
        return;
      }
      alerted := false;
      uploadedFiles := Map(files, ToPending) + uploadedFiles;
    }

    /** `handleEvaluateResumes`: posts every pending file with the job id,
        then re-fetches the roster. The pending list is cleared only when both
        requests succeed; otherwise it is kept for another try. */
    method EvaluateResumes(post: Outcome<Option<string>>, refetch: Outcome<seq<Candidate>>)
      returns (request: Option<EvaluationRequest>, alert: string)
      requires uploadedFiles != [] ==> selectedJob.Some?
      modifies this`candidates, this`uploadedFiles
      ensures old(uploadedFiles) == [] ==> request == None && alert == "No files to evaluate."
      ensures old(uploadedFiles) != [] ==>
                request == Some(EvaluationRequest(Map(old(uploadedFiles), FileOf), selectedJob.value.id))
      ensures old(uploadedFiles) != [] && post.Done? && refetch.Done? ==>
                candidates == SortByScore(refetch.value) && uploadedFiles == []
                && alert == (if post.value.Some? && post.value.value != "" then post.value.value
                             else "Evaluation completed")
      ensures old(uploadedFiles) == [] || post.Failed? || refetch.Failed? ==>
                candidates == old(candidates) && uploadedFiles == old(uploadedFiles)
      ensures old(uploadedFiles) != [] && (post.Failed? || refetch.Failed?) ==> alert == "Evaluation failed"
    {
      if uploadedFiles == [] {
        return None, "No files to evaluate.";
      }
      request := Some(EvaluationRequest(Map(uploadedFiles, FileOf), selectedJob.value.id));
      if post.Failed? || refetch.Failed? {
        return request, "Evaluation failed";
      }
      candidates := SortByScore(refetch.value);
      uploadedFiles := [];
      // `reply || "Evaluation completed"`: a missing or empty reply is falsy
      alert := if post.value.Some? && post.value.value != "" then post.value.value else "Evaluation completed";
    }

    /** `toggleSelect`. */
    method ToggleSelect(id: int)
      modifies this`selectedResumes
      ensures selectedResumes == Toggled(old(selectedResumes), id)
    {
      selectedResumes := Toggled(selectedResumes, id);
    }

    /** The header checkbox's change handler: ticking selects exactly the
        shown rows' ids, unticking clears the selection. */
    method SelectAll(checked: bool, f: FilterState)
      modifies this`selectedResumes
      ensures selectedResumes == if checked then Map(Filtered(candidates, f), IdOf) else []
    {
      if checked {
        selectedResumes := Map(Filtered(candidates, f), IdOf);
      } else {
        selectedResumes := [];
      }
    }

    /** `handleUpdateStatus`: flips the selected entries locally first, then
        sends one request per selected id in selection order, stopping at the
        first failure. The selection is cleared only when every request
        succeeded; the local flips are never undone. `outcomes[k]` is whether
        the k-th request succeeds. */
    method UpdateStatus(outcomes: seq<bool>) returns (requests: seq<ShortlistRequest>, allSaved: bool)
      requires |outcomes| == |selectedResumes|
      modifies this`shortlisted, this`selectedResumes
      ensures old(selectedResumes) == [] ==>
                requests == [] && !allSaved && shortlisted == old(shortlisted) && selectedResumes == []
      ensures old(selectedResumes) != [] ==>
                && shortlisted == FlipAll(old(shortlisted), old(selectedResumes))
                && |requests| == Attempts(outcomes)
                && (forall k :: 0 <= k < |requests| ==>
                      requests[k] == ShortlistRequest(old(selectedResumes)[k], Marked(shortlisted, old(selectedResumes)[k])))
                && (allSaved <==> forall k :: 0 <= k < |outcomes| ==> outcomes[k])
                && selectedResumes == if allSaved then [] else old(selectedResumes)
    {
      requests := [];
      allSaved := false;
      var sel := selectedResumes;
      if sel == [] {
        return;
      }
      var newShortlist := shortlisted;
      var k := 0;
      while k < |sel|
        invariant 0 <= k <= |sel|
        invariant newShortlist == FlipAll(shortlisted, sel[..k])
      {
        assert sel[..k + 1][..k] == sel[..k];
        newShortlist := newShortlist[sel[k] := Bool(!Marked(newShortlist, sel[k]))];
        k := k + 1;
      }
      assert sel[..|sel|] == sel;
      shortlisted := newShortlist;

      k := 0;
      var failed := false;
      while k < |sel| && !failed
        invariant 0 <= k <= |sel| && |requests| <= |sel|
        invariant failed ==> k < |sel| && !outcomes[k]
        invariant !failed ==> k == |requests| && k <= FirstFailure(outcomes)
        invariant failed ==> k == FirstFailure(outcomes) && |requests| == k + 1
        invariant forall i :: 0 <= i < |requests| ==>
                    requests[i] == ShortlistRequest(sel[i], Marked(newShortlist, sel[i]))
        decreases |sel| - k, if failed then 0 else 1
      {
        requests := requests + [ShortlistRequest(sel[k], Marked(newShortlist, sel[k]))];
        if !outcomes[k] {
          failed := true;
        } else {
          k := k + 1;
        }
      }
      allSaved := !failed;
      if allSaved {
        selectedResumes := [];
      }
    }

    /** `handleSendEmail`: fills "to" with the shortlisted candidates'
        addresses joined by ", " and blanks the other fields; with nobody
        shortlisted only an alert is raised and the modal stays closed. */
    method SendEmail() returns (alerted: bool)
      modifies this`emailForm, this`emailModalOpen
      ensures alerted <==> ShortlistedOf(candidates, shortlisted) == []
      ensures alerted ==> emailForm == old(emailForm) && emailModalOpen == old(emailModalOpen)
      ensures !alerted ==> (emailModalOpen
                && emailForm == MailForm(Join(Recipients(candidates, shortlisted), ", "), "", "", "", ""))
    {
      var list := Recipients(candidates, shortlisted);
      if |list| == 0 {
        return true;
      }
      alerted := false;
      emailForm := MailForm(Join(list, ", "), "", "", "", "");
      emailModalOpen := true;
    }

    /** `handleSendFinalEmail`: sends the form and the attachments; only a
        success closes the modal and drops the attachments. */
    method SendFinalEmail(sent: bool) returns (request: EmailRequest)
      modifies this`emailModalOpen, this`emailAttachments
      ensures request == EmailRequest(emailForm, old(emailAttachments))
      ensures sent ==> !emailModalOpen && emailAttachments == []
      ensures !sent ==> emailModalOpen == old(emailModalOpen) && emailAttachments == old(emailAttachments)
    {
      request := EmailRequest(emailForm, emailAttachments);
      if sent {
        emailModalOpen := false;
        emailAttachments := [];
      }
    }
  }

  /** Two job switches whose roster responses arrive out of order leave the
      first job's roster on screen under the second job's title. */
  method StaleResponseScenario(a: Job, b: Job, rosterA: seq<Candidate>, rosterB: seq<Candidate>)
    returns (page: JobsPage)
    ensures page.selectedJob == Some(b)
    ensures page.candidates == SortByScore(rosterA)
    ensures page.shortlisted == FlagMap(SortByScore(rosterA), AsSent)
  {
    page := new JobsPage();
    var _ := page.BeginSelectJob(a);
    var _ := page.BeginSelectJob(b);
    page.FinishSelectJob(Done(rosterB));
    page.FinishSelectJob(Done(rosterA));
  }
}
