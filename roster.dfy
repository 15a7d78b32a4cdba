/** The candidate roster as the job page holds it: the record shape the two
    candidate endpoints send, the stable sort by score, the selection toggle
    and the shortlist map shared by both versions of the job page. */
module Roster {
  import opened Common
  import CandidateModels

  /** A candidate as received by the browser. `email` is None for a JSON
      null; `shortlisted` is Undefined when the endpoint omits the field. */
  datatype Candidate = Candidate(
    id: int,
    name: string,
    email: Option<string>,
    score: int,
    experienceLevel: string,
    shortlisted: Flag)

  /** The record built by the candidate serializer (`/candidates/job/<id>/`):
      it carries the stored shortlist flag. The serializer sends a null
      name as JSON null; this record reads it as "". */
  function SerializedCandidate(c: CandidateModels.CandidateResume, jobLevel: string): (r: Candidate)
    ensures r.id == c.id && r.score == c.aiScore && r.email == c.candidateEmail
    ensures r.shortlisted == Bool(c.shortlisted)
  {
    Candidate(c.id, c.candidateName.GetOr(""), c.candidateEmail, c.aiScore, jobLevel, Bool(c.shortlisted))
  }

  /** `x or "N/A"` for an optional text column. */
  function OrNA(s: Option<string>): (r: string)
    ensures r != ""
  {
    match s
    case Some(t) => if t != "" then t else "N/A"
    case None => "N/A"
  }

  /** The record built by the job view's candidate list
      (`/jobs/<id>/candidates/`): blanks become "N/A" and there is no
      `shortlisted` field at all. */
  function JobCandidateRecord(c: CandidateModels.CandidateResume, jobLevel: string): (r: Candidate)
    ensures r.id == c.id && r.score == c.aiScore && r.name != "" && r.email.Some?
    ensures r.shortlisted == Undefined
  {
    Candidate(c.id, OrNA(c.candidateName), Some(OrNA(c.candidateEmail)), c.aiScore,
              OrNA(Some(jobLevel)), Undefined)
  }

  // ---------------------------------------------------------------------
  // `cands.sort((a, b) => b.score - a.score)`: a stable sort, highest score
  // first, equal scores in server order.
  // ---------------------------------------------------------------------

  predicate SortedDesc(s: seq<Candidate>) {
    forall i, j :: 0 <= i < j < |s| ==> s[i].score >= s[j].score
  }

  /** Places `x` before the first element it is not below. */
  function Insert(x: Candidate, t: seq<Candidate>): seq<Candidate> {
    if t == [] || x.score >= t[0].score then [x] + t
    else [t[0]] + Insert(x, t[1..])
  }

  /** Insertion adds exactly the one candidate. */
  lemma {:induction false} InsertPerm(x: Candidate, t: seq<Candidate>)
    ensures multiset(Insert(x, t)) == multiset(t) + multiset{x}
  {
    if t != [] && x.score < t[0].score {
      InsertPerm(x, t[1..]);
      assert t == [t[0]] + t[1..];
    }
  }

  /** Inserting into a sorted list keeps it sorted. */
  lemma {:induction false} InsertSorted(x: Candidate, t: seq<Candidate>)
    requires SortedDesc(t)
    ensures SortedDesc(Insert(x, t))
  {
    if t != [] && x.score < t[0].score {
      var rest := Insert(x, t[1..]);
      assert t == [t[0]] + t[1..];
      assert SortedDesc(t[1..]);
      InsertSorted(x, t[1..]);
      InsertPerm(x, t[1..]);
      ConsSorted(t, x, rest);
    } else {
      var r := [x] + t;
      forall i, j | 0 <= i < j < |r| ensures r[i].score >= r[j].score {
        assert r[j] == t[j - 1];
        if i > 0 { assert r[i] == t[i - 1]; }
      }
    }
  }

  /** The head of a sorted list stays in front of the rest with `x`, lower,
      inserted into it. */
  lemma ConsSorted(t: seq<Candidate>, x: Candidate, rest: seq<Candidate>)
    requires t != [] && SortedDesc(t) && x.score < t[0].score
    requires multiset(rest) == multiset(t[1..]) + multiset{x}
    requires SortedDesc(rest)
    ensures SortedDesc([t[0]] + rest)
  {
    forall i | 0 <= i < |rest| ensures t[0].score >= rest[i].score {
      assert rest[i] in multiset(rest);
      if rest[i] != x {
        assert rest[i] in multiset(t[1..]);
        var k :| 0 <= k < |t[1..]| && t[1..][k] == rest[i];
        assert t[k + 1] == rest[i];
      }
    }
    var r := [t[0]] + rest;
    forall i, j | 0 <= i < j < |r| ensures r[i].score >= r[j].score {
      if i > 0 {
        assert r[i] == rest[i - 1] && r[j] == rest[j - 1];
      } else {
        assert r[j] == rest[j - 1];
      }
    }
  }

  function SortByScore(s: seq<Candidate>): (r: seq<Candidate>)
    ensures SortedDesc(r)
    ensures multiset(r) == multiset(s)
    ensures |r| == |s|
  {
    if s == [] then []
    else
      assert s == [s[0]] + s[1..];
      var sorted := SortByScore(s[1..]);
      InsertSorted(s[0], sorted);
      InsertPerm(s[0], sorted);
      Insert(s[0], sorted)
  }

  function ScoreIs(v: int): Candidate -> bool {
    (c: Candidate) => c.score == v
  }

  lemma {:induction false} InsertStable(x: Candidate, t: seq<Candidate>, v: int)
    ensures Filter(Insert(x, t), ScoreIs(v)) == (if x.score == v then [x] else []) + Filter(t, ScoreIs(v))
  {
    var p := ScoreIs(v);
    if t == [] || x.score >= t[0].score {
      FilterCons(x, t, p);
    } else {
      var ins := Insert(x, t[1..]);
      var rest := Filter(t[1..], p);
      if x.score == v {
        calc {
          Filter(Insert(x, t), p);
        == { FilterPastHead(x, t, p); assert !p(t[0]); }
          Filter(ins, p);
        == { InsertStable(x, t[1..], v); }
          [x] + rest;
        == { assert t == [t[0]] + t[1..]; FilterCons(t[0], t[1..], p); }
          [x] + Filter(t, p);
        }
      } else {
        calc {
          Filter(Insert(x, t), p);
        == { FilterPastHead(x, t, p); }
          (if p(t[0]) then [t[0]] else []) + Filter(ins, p);
        == { InsertStable(x, t[1..], v); assert !p(x); assert [] + rest == rest; }
          (if p(t[0]) then [t[0]] else []) + rest;
        == { assert t == [t[0]] + t[1..]; FilterCons(t[0], t[1..], p); }
          Filter(t, p);
        == { assert [] + Filter(t, p) == Filter(t, p); }
          [] + Filter(t, p);
        }
      }
    }
  }

  /** When `x` goes past the head, the head is filtered first. */
  lemma FilterPastHead(x: Candidate, t: seq<Candidate>, p: Candidate -> bool)
    requires t != [] && x.score < t[0].score
    ensures Filter(Insert(x, t), p) == (if p(t[0]) then [t[0]] else []) + Filter(Insert(x, t[1..]), p)
  {
    assert Insert(x, t) == [t[0]] + Insert(x, t[1..]);
    FilterCons(t[0], Insert(x, t[1..]), p);
  }

  /** Sorting keeps candidates of equal score in their original order. */
  lemma {:induction false} SortStable(s: seq<Candidate>, v: int)
    ensures Filter(SortByScore(s), ScoreIs(v)) == Filter(s, ScoreIs(v))
  {
    if s != [] {
      SortStable(s[1..], v);
      InsertStable(s[0], SortByScore(s[1..]), v);
    }
  }

  // ---------------------------------------------------------------------
  // Selection and shortlist map
  // ---------------------------------------------------------------------

  predicate NoDup(s: seq<int>) {
    forall i, j :: 0 <= i < j < |s| ==> s[i] != s[j]
  }

  /** `prev.filter((x) => x !== id)`. */
  function Without(s: seq<int>, id: int): (r: seq<int>)
    ensures id !in r
    ensures forall x :: x != id ==> (x in r <==> x in s)
    ensures NoDup(s) ==> NoDup(r)
    ensures id !in s ==> r == s
  {
    if s == [] then []
    else
      var rest := Without(s[1..], id);
      assert s == [s[0]] + s[1..];
      assert NoDup(s) ==> s[0] !in s[1..];
      if s[0] == id then rest else [s[0]] + rest
  }

  /** The selection after clicking a row's checkbox: the id is removed when
      present and appended otherwise. */
  function Toggled(sel: seq<int>, id: int): (r: seq<int>)
    ensures id in r <==> id !in sel
    ensures forall x :: x != id ==> (x in r <==> x in sel)
    ensures NoDup(sel) ==> NoDup(r)
  {
    if id in sel then Without(sel, id) else sel + [id]
  }

  /** Toggling an unselected id twice restores the selection exactly; toggling
      a selected id twice moves it to the end. */
  lemma ToggleTwice(sel: seq<int>, id: int)
    ensures id !in sel ==> Toggled(Toggled(sel, id), id) == sel
    ensures id in sel ==> Toggled(Toggled(sel, id), id) == Without(sel, id) + [id]
  {
    if id !in sel {
      WithoutAppended(sel, id);
    }
  }

  lemma {:induction false} WithoutAppended(s: seq<int>, id: int)
    requires id !in s
    ensures Without(s + [id], id) == s
  {
    if s == [] {
      assert [] + [id] == [id];
    } else {
      assert (s + [id])[0] == s[0] && (s + [id])[1..] == s[1..] + [id];
      WithoutAppended(s[1..], id);
    }
  }

  /** `shortlisted[id]` is truthy. */
  predicate Marked(m: map<int, Flag>, id: int) {
    id in m && Truthy(m[id])
  }

  function MarkedIn(m: map<int, Flag>): Candidate -> bool {
    (c: Candidate) => Marked(m, c.id)
  }

  /** `candidates.filter((c) => shortlisted[c.id])`. */
  function ShortlistedOf(cands: seq<Candidate>, m: map<int, Flag>): (r: seq<Candidate>)
    ensures IsSubsequence(r, cands)
    ensures forall i :: 0 <= i < |r| ==> r[i] in cands && Marked(m, r[i].id)
    ensures forall i :: 0 <= i < |cands| && Marked(m, cands[i].id) ==> cands[i] in r
  {
    FilterIsSubsequence(cands, MarkedIn(m));
    FilterMembers(cands, MarkedIn(m));
    Filter(cands, MarkedIn(m))
  }

  function Ids(cands: seq<Candidate>): set<int> {
    set c | c in cands :: c.id
  }

  /** The map a `forEach` over the roster builds: later candidates overwrite
      earlier ones with the same id. */
  function FlagMap(cands: seq<Candidate>, f: Flag -> Flag): map<int, Flag> {
    if cands == [] then map[]
    else
      var last := cands[|cands| - 1];
      FlagMap(cands[..|cands| - 1], f)[last.id := f(last.shortlisted)]
  }

  /** The map has exactly one key per candidate id. */
  lemma {:induction false} FlagMapKeys(cands: seq<Candidate>, f: Flag -> Flag)
    ensures FlagMap(cands, f).Keys == Ids(cands)
  {
    if cands != [] {
      var init := cands[..|cands| - 1];
      FlagMapKeys(init, f);
      assert cands == init + [cands[|cands| - 1]];
      assert Ids(cands) == Ids(init) + {cands[|cands| - 1].id};
    } else {
      assert Ids(cands) == {};
    }
  }

  /** With distinct ids, each entry is computed from that candidate's own
      flag. */
  lemma {:induction false} FlagMapValues(cands: seq<Candidate>, f: Flag -> Flag)
    requires forall i, j :: 0 <= i < j < |cands| ==> cands[i].id != cands[j].id
    ensures forall i :: 0 <= i < |cands| ==>
              cands[i].id in FlagMap(cands, f) && FlagMap(cands, f)[cands[i].id] == f(cands[i].shortlisted)
  {
    if cands != [] {
      var n := |cands| - 1;
      var init := cands[..n];
      FlagMapValues(init, f);
      forall i | 0 <= i < |cands|
        ensures cands[i].id in FlagMap(cands, f) && FlagMap(cands, f)[cands[i].id] == f(cands[i].shortlisted)
      {
        if i < n {
          assert init[i] == cands[i];
          assert cands[i].id != cands[n].id;
        }
      }
    }
  }

  /** Every entry of the map comes from a candidate with that id. */
  lemma {:induction false} FlagMapFrom(cands: seq<Candidate>, f: Flag -> Flag, id: int)
    requires id in FlagMap(cands, f)
    ensures exists i :: 0 <= i < |cands| && cands[i].id == id && FlagMap(cands, f)[id] == f(cands[i].shortlisted)
  {
    var n := |cands| - 1;
    if cands[n].id != id {
      FlagMapFrom(cands[..n], f, id);
      var i :| 0 <= i < n && cands[..n][i].id == id && FlagMap(cands[..n], f)[id] == f(cands[..n][i].shortlisted);
      assert cands[i] == cands[..n][i];
    }
  }

  /** Builds the shortlist map with a loop over the roster. */
  method BuildFlagMap(cands: seq<Candidate>, f: Flag -> Flag) returns (m: map<int, Flag>)
    ensures m == FlagMap(cands, f)
  {
    m := map[];
    var k := 0;
    while k < |cands|
      invariant 0 <= k <= |cands|
      invariant m == FlagMap(cands[..k], f)
    {
      assert cands[..k + 1][..k] == cands[..k];
      m := m[cands[k].id := f(cands[k].shortlisted)];
      k := k + 1;
    }
    assert cands[..|cands|] == cands;
  }

  /** The job page stores the server's value as it is. */
  function AsSent(f: Flag): Flag { f }

  /** The older job page keeps only an exact `1` or `true` as shortlisted. */
  function StrictlyTrue(f: Flag): (r: Flag)
    ensures r.Bool?
    ensures Truthy(r) ==> Truthy(f)
  {
    Bool(f == Num(1) || f == Bool(true))
  }
}
