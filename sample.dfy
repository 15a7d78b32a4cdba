/** The older version of the job page. It holds the roster, the shortlist
    map and the ticked ids, like the current page. A shortlist update sends
    the requests first, writes nothing locally, and re-fetches the roster
    once every request has succeeded. */
module SampleJobs {
  import opened Common
  import opened Roster
  import CandidateModels
  import JobsTab

  datatype Tab = Info | Candidates | Shortlisted

  /** The older page reads the roster from the job view
      (`/jobs/<id>/candidates/`). */
  function JobRecordOf(level: string): CandidateModels.CandidateResume -> Candidate {
    (c: CandidateModels.CandidateResume) => JobCandidateRecord(c, level)
  }

  /** The candidate list endpoint (`/candidates/job/<id>/`) sends the stored
      flag. */
  function SerializedOf(level: string): CandidateModels.CandidateResume -> Candidate {
    (c: CandidateModels.CandidateResume) => SerializedCandidate(c, level)
  }

  predicate DistinctIds(cands: seq<Candidate>) {
    forall i, j :: 0 <= i < j < |cands| ==> cands[i].id != cands[j].id
  }

  /** Every shortlist request reported a success. */
  predicate AllSaved(outcomes: seq<bool>) {
    JobsTab.FirstFailure(outcomes) == |outcomes|
  }

  class SamplePage {
    var selectedJob: Option<Job>
    var activeTab: Tab
    var candidates: seq<Candidate>
    var shortlisted: map<int, Flag>
    var selectedResumes: seq<int>

    constructor ()
      ensures selectedJob == None && activeTab == Info
      ensures candidates == [] && shortlisted == map[] && selectedResumes == []
    {
      selectedJob := None;
      activeTab := Info;
      candidates := [];
      shortlisted := map[];
      selectedResumes := [];
    }

    /** `handleSelectJob` up to its `await`: the roster and the shortlist map
        are emptied. The ticked ids are kept. */
    method BeginSelectJob(job: Job) returns (fetchFor: nat)
      modifies this`selectedJob, this`activeTab, this`candidates, this`shortlisted
      ensures fetchFor == job.id
      ensures selectedJob == Some(job) && activeTab == Info
      ensures candidates == [] && shortlisted == map[]
    {
      selectedJob := Some(job);
      activeTab := Info;
      candidates := [];
      shortlisted := map[];
      fetchFor := job.id;
    }

    /** `handleSelectJob` after its `await`. The roster is sorted by score.
        Only an exact `1` or `true` counts as shortlisted in the map. A
        failed request, or a missing `candidates` field read as `[]`, leaves
        the emptied state. */
    method FinishSelectJob(response: Outcome<Option<seq<Candidate>>>)
      modifies this`candidates, this`shortlisted
      ensures response.Done? ==> candidates == SortByScore(response.value.GetOr([]))
      ensures response.Done? ==> shortlisted == FlagMap(candidates, StrictlyTrue)
      ensures response.Failed? ==> candidates == old(candidates) && shortlisted == old(shortlisted)
    {
      match response
      case Done(body) =>
        var sorted := SortByScore(body.GetOr([]));
        candidates := sorted;
        shortlisted := BuildFlagMap(sorted, StrictlyTrue);
      case Failed =>
    }

    /** `toggleCandidateSelection`. */
    method ToggleSelection(id: int)
      modifies this`selectedResumes
      ensures selectedResumes == Toggled(old(selectedResumes), id)
      ensures NoDup(old(selectedResumes)) ==> NoDup(selectedResumes)
    {
      selectedResumes := Toggled(selectedResumes, id);
    }

    /** `handleUpdateStatus`. Nothing happens when no id is ticked. Otherwise
        one request per ticked id goes out, in order, each carrying the
        negation of the id's map entry; the map is not written, and the
        first failure stops the loop. Only when every request succeeds and a
        job is selected is the roster fetched again. When that fetch
        succeeds, the roster is re-sorted, the map is rebuilt from the
        server's raw values, and the selection is cleared. On any failure
        all three are left as they were. `outcomes[k]` is the k-th request's
        result and `refetch` the roster request's. */
    method UpdateStatus(outcomes: seq<bool>, refetch: Outcome<Option<seq<Candidate>>>)
      returns (requests: seq<JobsTab.ShortlistRequest>, fetchFor: Option<nat>)
      requires |outcomes| == |selectedResumes|
      modifies this`candidates, this`shortlisted, this`selectedResumes
      ensures old(selectedResumes) == [] ==> requests == [] && fetchFor == None
      ensures old(selectedResumes) != [] ==> |requests| == JobsTab.Attempts(outcomes)
      ensures forall k :: 0 <= k < |requests| ==>
                requests[k] == JobsTab.ShortlistRequest(old(selectedResumes)[k],
                                                        !Marked(old(shortlisted), old(selectedResumes)[k]))
      ensures fetchFor.Some? <==> old(selectedResumes) != [] && AllSaved(outcomes) && selectedJob.Some?
      ensures fetchFor.Some? ==> fetchFor.value == selectedJob.value.id
      ensures fetchFor.Some? && refetch.Done? ==>
                && candidates == SortByScore(refetch.value.GetOr([]))
                && shortlisted == FlagMap(candidates, AsSent)
                && selectedResumes == []
      ensures fetchFor.None? || refetch.Failed? ==>
                && candidates == old(candidates)
                && shortlisted == old(shortlisted)
                && selectedResumes == old(selectedResumes)
    {
      requests := [];
      fetchFor := None;
      var sel := selectedResumes;
      if sel == [] {
        return;
      }
      var k := 0;
      var failed := false;
      while k < |sel| && !failed
        invariant 0 <= k <= |sel| && |requests| <= |sel|
        invariant failed ==> k < |sel| && !outcomes[k]
        invariant !failed ==> k == |requests| && k <= JobsTab.FirstFailure(outcomes)
        invariant failed ==> k == JobsTab.FirstFailure(outcomes) && |requests| == k + 1
        invariant forall i :: 0 <= i < |requests| ==>
                    requests[i] == JobsTab.ShortlistRequest(sel[i], !Marked(shortlisted, sel[i]))
        decreases |sel| - k, if failed then 0 else 1
      {
        requests := requests + [JobsTab.ShortlistRequest(sel[k], !Marked(shortlisted, sel[k]))];
        if !outcomes[k] {
          failed := true;
        } else {
          k := k + 1;
        }
      }
      if failed || selectedJob.None? {
        return;
      }
      fetchFor := Some(selectedJob.value.id);
      match refetch
      case Done(body) =>
        var sorted := SortByScore(body.GetOr([]));
        candidates := sorted;
        shortlisted := BuildFlagMap(sorted, AsSent);
        selectedResumes := [];
      case Failed =>
    }
  }

  /** After a load, the map has one entry per candidate id and every entry is
      a boolean. With distinct ids, a candidate's entry is true exactly when
      its field was `1` or `true`. */
  lemma LoadedShortlist(cands: seq<Candidate>)
    ensures FlagMap(SortByScore(cands), StrictlyTrue).Keys == Ids(cands)
    ensures forall id :: id in FlagMap(SortByScore(cands), StrictlyTrue) ==> FlagMap(SortByScore(cands), StrictlyTrue)[id].Bool?
    ensures DistinctIds(cands) ==>
              forall i :: 0 <= i < |cands| ==>
                (Marked(FlagMap(SortByScore(cands), StrictlyTrue), cands[i].id) <==>
                 cands[i].shortlisted == Num(1) || cands[i].shortlisted == Bool(true))
  {
    var sorted := SortByScore(cands);
    var m := FlagMap(sorted, StrictlyTrue);
    FlagMapKeys(sorted, StrictlyTrue);
    SameIds(cands, sorted);
    forall id | id in m ensures m[id].Bool? {
      FlagMapFrom(sorted, StrictlyTrue, id);
    }
    if DistinctIds(cands) {
      forall i | 0 <= i < |cands|
        ensures Marked(m, cands[i].id) <==> cands[i].shortlisted == Num(1) || cands[i].shortlisted == Bool(true)
      {
        assert cands[i].id in Ids(cands);
        FlagMapFrom(sorted, StrictlyTrue, cands[i].id);
        var j :| 0 <= j < |sorted| && sorted[j].id == cands[i].id && m[cands[i].id] == StrictlyTrue(sorted[j].shortlisted);
        SameCandidate(cands, sorted, i, j);
      }
    }
  }

  /** Sorting keeps the set of ids. */
  lemma SameIds(cands: seq<Candidate>, sorted: seq<Candidate>)
    requires multiset(sorted) == multiset(cands)
    ensures Ids(sorted) == Ids(cands)
  {
    forall c | c in sorted ensures c in cands {
      assert c in multiset(sorted);
    }
    forall c | c in cands ensures c in sorted {
      assert c in multiset(cands);
    }
  }

  /** With distinct ids, a candidate of the sorted roster with the id of
      `cands[i]` is `cands[i]` itself. */
  lemma SameCandidate(cands: seq<Candidate>, sorted: seq<Candidate>, i: int, j: int)
    requires multiset(sorted) == multiset(cands) && DistinctIds(cands)
    requires 0 <= i < |cands| && 0 <= j < |sorted| && sorted[j].id == cands[i].id
    ensures sorted[j] == cands[i]
  {
    assert sorted[j] in multiset(cands);
    var k :| 0 <= k < |cands| && cands[k] == sorted[j];
  }

  /** The roster as the older page receives it: the job view's records for
      the stored rows, none of which carries a `shortlisted` field. */
  lemma JobViewRecordsUnmarked(rows: seq<CandidateModels.CandidateResume>, level: string)
    ensures forall i :: 0 <= i < |SortByScore(Map(rows, JobRecordOf(level)))| ==>
              SortByScore(Map(rows, JobRecordOf(level)))[i].shortlisted == Undefined
  {
    var cands := Map(rows, JobRecordOf(level));
    var sorted := SortByScore(cands);
    forall i | 0 <= i < |sorted| ensures sorted[i].shortlisted == Undefined {
      assert sorted[i] in multiset(cands);
    }
  }

  /** As written, the shortlisted view of the older page is empty after a
      load and after a reload, whatever the stored flags are: the job view's
      records have no `shortlisted` field, so the load maps every id to false
      and the reload maps every id to `undefined`. */
  lemma ShortlistLostOnLoad(rows: seq<CandidateModels.CandidateResume>, level: string)
    ensures var sorted := SortByScore(Map(rows, JobRecordOf(level)));
            && ShortlistedOf(sorted, FlagMap(sorted, StrictlyTrue)) == []
            && ShortlistedOf(sorted, FlagMap(sorted, AsSent)) == []
  {
    var sorted := SortByScore(Map(rows, JobRecordOf(level)));
    JobViewRecordsUnmarked(rows, level);
    NoneMarked(sorted, StrictlyTrue);
    NoneMarked(sorted, AsSent);
  }

  /** When every candidate's field is missing and `f` maps a missing field
      to a falsy value, no candidate is shown as shortlisted. */
  lemma NoneMarked(sorted: seq<Candidate>, f: Flag -> Flag)
    requires !Truthy(f(Undefined))
    requires forall i :: 0 <= i < |sorted| ==> sorted[i].shortlisted == Undefined
    ensures ShortlistedOf(sorted, FlagMap(sorted, f)) == []
  {
    var m := FlagMap(sorted, f);
    forall i | 0 <= i < |sorted| ensures !MarkedIn(m)(sorted[i]) {
      if sorted[i].id in m {
        FlagMapFrom(sorted, f, sorted[i].id);
      }
    }
    FilterNone(sorted, MarkedIn(m));
  }

  /** A stored row marked as shortlisted, absent from the older page's view
      after it loads. */
  lemma ShortlistLostExample(c: CandidateModels.CandidateResume, level: string)
    requires c.shortlisted
    ensures var sorted := SortByScore(Map([c], JobRecordOf(level)));
            SerializedCandidate(c, level).shortlisted == Bool(true)
            && ShortlistedOf(sorted, FlagMap(sorted, StrictlyTrue)) == []
  {
    ShortlistLostOnLoad([c], level);
  }

  /** The evident intent: loading the serialized records, which carry the
      stored flag, shows exactly the rows stored as shortlisted. */
  lemma SerializedShortlistKept(rows: seq<CandidateModels.CandidateResume>, level: string)
    requires forall i, j :: 0 <= i < j < |rows| ==> rows[i].id != rows[j].id
    ensures var sorted := SortByScore(Map(rows, SerializedOf(level)));
            forall i :: 0 <= i < |rows| ==>
              (SerializedCandidate(rows[i], level) in ShortlistedOf(sorted, FlagMap(sorted, StrictlyTrue)) <==>
               rows[i].shortlisted)
  {
    var cands := Map(rows, SerializedOf(level));
    var sorted := SortByScore(cands);
    var m := FlagMap(sorted, StrictlyTrue);
    assert DistinctIds(cands);
    LoadedShortlist(cands);
    forall i | 0 <= i < |rows|
      ensures SerializedCandidate(rows[i], level) in ShortlistedOf(sorted, m) <==> rows[i].shortlisted
    {
      var c := cands[i];
      assert c == SerializedCandidate(rows[i], level);
      assert c in multiset(sorted);
      ShownIffMarked(sorted, m, c);
    }
  }

  /** A roster row is shown on the shortlisted tab exactly when its id is
      marked. */
  lemma ShownIffMarked(cands: seq<Candidate>, m: map<int, Flag>, c: Candidate)
    requires c in cands
    ensures c in ShortlistedOf(cands, m) <==> Marked(m, c.id)
  {
    var r := ShortlistedOf(cands, m);
    var j :| 0 <= j < |cands| && cands[j] == c;
    if c in r {
      var k :| 0 <= k < |r| && r[k] == c;
    }
  }
}
