/** The helpers of the job chat view and its resume-evaluation branch: text
    truncation before the AI prompt, extraction of a JSON span from the AI's
    answer, the shortlist and count command parsers, title-token job
    matching, the per-file evaluation loop with its score and list
    normalisation, and the missing-field check of job creation. The AI
    service, PDF text extraction, `json.loads`, `int(float(x))` and the
    database are parameters. */
module JobsViews {
  import opened Common
  import opened Text

  /** A value produced by `json.loads`. */
  datatype Json =
    | JNull
    | JBool(b: bool)
    | JNum(r: real)
    | JStr(s: string)
    | JArr(items: seq<Json>)
    | JObj(fields: map<string, Json>)

  /** Python truthiness of a decoded value. */
  predicate JTruthy(j: Json) {
    match j
    case JNull => false
    case JBool(b) => b
    case JNum(r) => r != 0.0
    case JStr(s) => s != ""
    case JArr(xs) => xs != []
    case JObj(m) => |m| > 0
  }

  /** `d.get(key, default)`. */
  function Get(m: map<string, Json>, key: string, default: Json): Json {
    if key in m then m[key] else default
  }

  /** `x or default`. */
  function Or(j: Json, default: Json): Json {
    if JTruthy(j) then j else default
  }

  function Clamp(n: int): (r: int)
    ensures 0 <= r <= 100
    ensures 0 <= n <= 100 ==> r == n
    ensures n < 0 ==> r == 0
    ensures n > 100 ==> r == 100
  {
    if n < 0 then 0 else if n > 100 then 100 else n
  }

  // ---------------------------------------------------------------------
  // truncate
  // ---------------------------------------------------------------------

  /** `s[:n]`. */
  function Head(s: string, n: nat): (r: string)
    ensures |r| == if |s| <= n then |s| else n
    ensures StartsWith(s, r)
  {
    if |s| <= n then s else s[..n]
  }

  /** `s[-n:]` for a positive `n`. */
  function Tail(s: string, n: nat): (r: string)
    ensures |r| == if |s| <= n then |s| else n
    ensures EndsWith(s, r)
  {
    if |s| <= n then s else s[|s| - n..]
  }

  const Ellipsis: string := "\n...\n"

  /** `truncate(text, max_chars)`: text within the limit is kept; longer text
      keeps its first 7000 and last 6000 characters around an ellipsis line,
      whatever the limit. */
  function Truncate(text: string, maxChars: int): (r: string)
    ensures |text| <= maxChars ==> r == text
    ensures |text| > maxChars ==>
              && |r| == |Head(text, 7000)| + |Ellipsis| + |Tail(text, 6000)|
              && StartsWith(r, Head(text, 7000))
              && EndsWith(r, Ellipsis + Tail(text, 6000))
  {
    if |text| <= maxChars then text
    else
      var r := Head(text, 7000) + Ellipsis + Tail(text, 6000);
      assert r[..|Head(text, 7000)|] == Head(text, 7000);
      assert r[|r| - |Ellipsis + Tail(text, 6000)|..] == Ellipsis + Tail(text, 6000);
      r
  }

  /** With the default limit of 15000 the result never exceeds the limit, so
      truncating twice changes nothing more. */
  lemma TruncateDefault(text: string)
    ensures |Truncate(text, 15000)| <= 15000
    ensures Truncate(Truncate(text, 15000), 15000) == Truncate(text, 15000)
    ensures |text| > 15000 ==> |Truncate(text, 15000)| == 13005
  {
  }

  /** Below 6000 characters a limit smaller than the text repeats the whole
      text on both sides of the ellipsis. */
  lemma TruncateSmallLimit(text: string, maxChars: int)
    requires maxChars < |text| <= 6000
    ensures Truncate(text, maxChars) == text + Ellipsis + text
  {
  }

  // ---------------------------------------------------------------------
  // JSON spans: `re.search(r"\{.*\}", text, re.DOTALL)` and friends
  // ---------------------------------------------------------------------

  function FirstIndex(s: string, c: char): (r: Option<nat>)
    ensures r.None? <==> c !in s
    ensures r.Some? ==> r.value < |s| && s[r.value] == c && c !in s[..r.value]
  {
    if s == [] then None
    else if s[0] == c then Some(0)
    else
      match FirstIndex(s[1..], c)
      case None => None
      case Some(i) =>
        assert s[..i + 1] == [s[0]] + s[1..][..i];
        Some(i + 1)
  }

  function LastIndex(s: string, c: char): (r: Option<nat>)
    ensures r.None? <==> c !in s
    ensures r.Some? ==> r.value < |s| && s[r.value] == c && c !in s[r.value + 1..]
  {
    if s == [] then None
    else if s[|s| - 1] == c then Some(|s| - 1)
    else
      var init := s[..|s| - 1];
      assert s == init + [s[|s| - 1]];
      match LastIndex(init, c)
      case None => None
      case Some(j) =>
        assert s[j + 1..] == init[j + 1..] + [s[|s| - 1]];
        Some(j)
  }

  /** Some `open` comes before some `close`: the patterns can match. */
  predicate HasSpan(s: string, open: char, close: char) {
    exists i, j :: 0 <= i < j < |s| && s[i] == open && s[j] == close
  }

  /** The greedy match: from the first `open` to the last `close`. */
  function GreedySpan(s: string, open: char, close: char): (r: Option<string>)
    requires open != close
    ensures r.Some? <==> HasSpan(s, open, close)
    ensures r.Some? ==> |r.value| >= 2 && r.value[0] == open && r.value[|r.value| - 1] == close
    ensures r.Some? ==> open !in s[..FirstIndex(s, open).value] && close !in s[LastIndex(s, close).value + 1..]
    ensures r.Some? ==> r.value == s[FirstIndex(s, open).value..LastIndex(s, close).value + 1]
  {
    var i, j := FirstIndex(s, open), LastIndex(s, close);
    if i.Some? && j.Some? && i.value < j.value then
      Some(s[i.value..j.value + 1])
    else
      None
  }

  /** The lazy match: from the first `open` to the first `close` after it. */
  function LazySpan(s: string, open: char, close: char): (r: Option<string>)
    requires open != close
    ensures r.Some? <==> HasSpan(s, open, close)
    ensures r.Some? ==> |r.value| >= 2 && r.value[0] == open && r.value[|r.value| - 1] == close
    ensures r.Some? ==> close !in r.value[..|r.value| - 1]
  {
    match FirstIndex(s, open)
    case None => None
    case Some(i) =>
      match FirstIndex(s[i + 1..], close)
      case None =>
        None
      case Some(k) =>
        var t := s[i + 1..];
        var r := s[i..i + k + 2];
        assert r[0] == open && r[k + 1] == t[k] == close;
        assert close !in r[..k + 1] by {
          forall m | 0 <= m < k + 1 ensures r[m] != close {
            if m > 0 {
              assert r[m] == t[m - 1] && t[m - 1] in t[..k];
            }
          }
        }
        Some(r)
  }

  /** Both matches start at the same brace; the lazy one ends at or before
      the greedy one. */
  lemma LazyPrefixOfGreedy(s: string, open: char, close: char)
    requires open != close && HasSpan(s, open, close)
    ensures StartsWith(GreedySpan(s, open, close).value, LazySpan(s, open, close).value)
  {
    var i := FirstIndex(s, open).value;
    var j := LastIndex(s, close).value;
    var k := FirstIndex(s[i + 1..], close).value;
    assert s[i + 1 + k] == close;
  }

  /** `s.replace(pat, "")`, scanning left to right. */
  function RemoveAll(s: string, pat: string): string
    requires pat != []
    decreases |s|
  {
    if s == [] then []
    else if StartsWith(s, pat) then RemoveAll(s[|pat|..], pat)
    else [s[0]] + RemoveAll(s[1..], pat)
  }

  lemma {:induction false} RemoveAllAbsent(s: string, pat: string, c: char)
    requires pat != [] && c !in s
    ensures c !in RemoveAll(s, pat)
    decreases |s|
  {
    if s != [] {
      if StartsWith(s, pat) {
        assert forall x :: x in s[|pat|..] ==> x in s;
        RemoveAllAbsent(s[|pat|..], pat, c);
      } else {
        assert forall x :: x in s[1..] ==> x in s;
        RemoveAllAbsent(s[1..], pat, c);
      }
    }
  }

  lemma SpanOfSlice(s: string, a: nat, b: nat, open: char, close: char)
    requires a <= b <= |s| && HasSpan(s[a..b], open, close)
    ensures HasSpan(s, open, close)
  {
    var i, j :| 0 <= i < j < |s[a..b]| && s[a..b][i] == open && s[a..b][j] == close;
    assert s[a + i] == open && s[a + j] == close;
  }

  /** Deleting occurrences of a pattern never puts an `open` before a
      `close` that was not already there. */
  lemma {:induction false} RemoveAllKeepsNoSpan(s: string, pat: string, open: char, close: char)
    requires pat != [] && !HasSpan(s, open, close)
    ensures !HasSpan(RemoveAll(s, pat), open, close)
    decreases |s|
  {
    if s != [] {
      if StartsWith(s, pat) {
        RemoveAllKeepsNoSpan(s[|pat|..], pat, open, close);
      } else {
        RemoveAllKeepsNoSpan(s[1..], pat, open, close);
        var rest := RemoveAll(s[1..], pat);
        if s[0] == open {
          assert close !in s[1..];
          RemoveAllAbsent(s[1..], pat, close);
        }
        var r := [s[0]] + rest;
        assert forall x :: 1 <= x < |r| ==> r[x] == rest[x - 1];
      }
    }
  }

  /** The fallback of `extract_json`: the answer with its Markdown code fences
      removed and surrounding whitespace stripped. */
  function Cleaned(text: string): string {
    Strip(PySpace, RemoveAll(RemoveAll(text, "```json"), "```"))
  }

  /** The fallback search can never succeed where the first one failed. */
  lemma CleanedHasNoNewSpan(text: string)
    requires !HasSpan(text, '{', '}')
    ensures !HasSpan(Cleaned(text), '{', '}')
  {
    var t := RemoveAll(RemoveAll(text, "```json"), "```");
    RemoveAllKeepsNoSpan(text, "```json", '{', '}');
    RemoveAllKeepsNoSpan(RemoveAll(text, "```json"), "```", '{', '}');
    if StartIndex(PySpace, t) != |t| && HasSpan(Cleaned(text), '{', '}') {
      SpanOfSlice(t, StartIndex(PySpace, t), EndIndex(PySpace, t), '{', '}');
    }
  }

  /** `extract_json(text)`: None for empty text; otherwise the greedy brace
      span is parsed, and no span or a parse failure gives None. The code's
      second search on the cleaned text is kept as written; it never finds a
      span the first search missed. */
  function ExtractJson(text: string, parse: string -> Option<Json>): (r: Option<Json>)
    ensures text == "" ==> r.None?
    ensures !HasSpan(text, '{', '}') ==> r.None?
    ensures text != "" && HasSpan(text, '{', '}') ==> r == parse(GreedySpan(text, '{', '}').value)
  {
    if text == "" then None
    else
      var first := GreedySpan(text, '{', '}');
      var m := if first.Some? then first else GreedySpan(Cleaned(text), '{', '}');
      assert first.None? ==> !HasSpan(Cleaned(text), '{', '}') by {
        if first.None? { CleanedHasNoNewSpan(text); }
      }
      match m
      case None => None
      case Some(span) => parse(span)
  }

  /** `extract_array(text)`: the greedy bracket span parsed, `[]` when there
      is no span or it does not parse. */
  function ExtractArray(text: string, parse: string -> Option<Json>): (r: Json)
    ensures !HasSpan(text, '[', ']') ==> r == JArr([])
    ensures HasSpan(text, '[', ']') ==> r == parse(GreedySpan(text, '[', ']').value).GetOr(JArr([]))
  {
    match GreedySpan(text, '[', ']')
    case None => JArr([])
    case Some(span) => parse(span).GetOr(JArr([]))
  }

  /** `clean_json_array(text)`: as `extract_array`, with the lazy span. */
  function CleanJsonArray(text: string, parse: string -> Option<Json>): (r: Json)
    ensures !HasSpan(text, '[', ']') ==> r == JArr([])
    ensures HasSpan(text, '[', ']') ==> r == parse(LazySpan(text, '[', ']').value).GetOr(JArr([]))
  {
    match LazySpan(text, '[', ']')
    case None => JArr([])
    case Some(span) => parse(span).GetOr(JArr([]))
  }

  // ---------------------------------------------------------------------
  // Chat commands. The regular expressions are abstracted to their
  // captures: `digits` is the `(\d{1,3})` group when the pattern matched.
  // ---------------------------------------------------------------------

  /** `parse_shortlist_command(text)`: (threshold, apply). `applyVerb` is
      whether the apply-verb pattern occurs in the text. */
  function ParseShortlistCommand(text: string, digits: Option<string>, applyVerb: bool): (r: (Option<int>, bool))
    ensures text == "" || digits.None? ==> r == (None, false)
    ensures r.0.Some? ==> 0 <= r.0.value <= 100 && r.1 == applyVerb
    ensures r.0.None? ==> !r.1
  {
    if text == "" then (None, false)
    else
      match digits
      case None => (None, false)
      case Some(d) =>
        match ParseDigits(d)
        case None => (None, false)
        case Some(n) => (Some(Clamp(n)), applyVerb)
  }

  /** A matched threshold is read back as written, capped at 100. */
  lemma ShortlistThreshold(text: string, n: nat, applyVerb: bool)
    requires text != ""
    ensures ParseShortlistCommand(text, Some(NatToString(n)), applyVerb)
            == (Some(if n <= 100 then n else 100), applyVerb)
  {
    ParseNatToString(n);
  }

  datatype CountCommand = Total | Above(threshold: int)

  /** `parse_count_command(text)`. `countQuery` is whether "how many
      resumes/candidates/applications/applicants" occurs in the lower-cased
      text, `aboveDigits` the capture of "above N" and `directDigits` that of
      "how many … above N". */
  function ParseCountCommand(countQuery: bool, aboveDigits: Option<string>, directDigits: Option<string>): (r: Option<CountCommand>)
    ensures r.Some? && r.value.Above? ==> 0 <= r.value.threshold <= 100
    ensures countQuery ==> r.Some?
    ensures countQuery && aboveDigits.None? ==> r == Some(Total)
    ensures !countQuery ==> (r.Some? ==> r.value.Above?)
    ensures !countQuery && directDigits.None? ==> r.None?
  {
    if countQuery then
      match aboveDigits
      case None => Some(Total)
      case Some(d) =>
        match ParseDigits(d)
        case None => Some(Total)
        case Some(n) => Some(Above(Clamp(n)))
    else
      match directDigits
      case None => None
      case Some(d) =>
        match ParseDigits(d)
        case None => None
        case Some(n) => Some(Above(Clamp(n)))
  }

  /** The two patterns agree on the threshold they read. */
  lemma CountThreshold(countQuery: bool, n: nat)
    ensures ParseCountCommand(countQuery, Some(NatToString(n)), Some(NatToString(n)))
            == Some(Above(if n <= 100 then n else 100))
  {
    ParseNatToString(n);
  }

  // ---------------------------------------------------------------------
  // find_matching_job_for_user
  // ---------------------------------------------------------------------

  /** `\w` on ASCII: letters, digits and '_'; other characters beyond ASCII
      are treated as word characters too (Python counts letters of every
      script). */
  predicate IsWordChar(c: char) {
    ('a' <= c <= 'z') || ('A' <= c <= 'Z') || ('0' <= c <= '9') || c == '_' || c as int > 127
  }

  function NonWord(): char -> bool {
    (c: char) => !IsWordChar(c)
  }

  function LongToken(): string -> bool {
    (t: string) => |t| > 2
  }

  /** The lower-cased title split on non-word characters, keeping tokens
      longer than two characters. Splitting on every separator instead of on
      runs only adds empty pieces, which the length test drops. */
  function TitleTokens(title: string): (r: seq<string>)
    ensures forall k :: 0 <= k < |r| ==> |r[k]| > 2
    ensures forall k, i :: 0 <= k < |r| && 0 <= i < |r[k]| ==> IsWordChar(r[k][i])
  {
    var pieces := Split(ToLower(title), NonWord());
    var r := Filter(pieces, LongToken());
    FilterMembers(pieces, LongToken());
    r
  }

  /** Some title token occurs in the lower-cased message. */
  predicate JobMatches(title: string, loweredMessage: string) {
    var tokens := TitleTokens(title);
    exists k :: 0 <= k < |tokens| && Contains(loweredMessage, tokens[k])
  }

  /** `sum(1 for tk in tokens if tk in message)`. */
  function MatchCount(tokens: seq<string>, message: string): nat {
    if tokens == [] then 0
    else MatchCount(tokens[..|tokens| - 1], message) + (if Contains(message, tokens[|tokens| - 1]) then 1 else 0)
  }

  lemma {:induction false} MatchCountPositive(tokens: seq<string>, message: string)
    ensures MatchCount(tokens, message) > 0 <==> exists k :: 0 <= k < |tokens| && Contains(message, tokens[k])
  {
    if tokens != [] {
      var init := tokens[..|tokens| - 1];
      MatchCountPositive(init, message);
      assert forall k :: 0 <= k < |init| ==> init[k] == tokens[k];
    }
  }

  /** The order of `order_by("-id")`: ids strictly decreasing. */
  predicate ByDescendingId(jobs: seq<Job>) {
    forall i, j :: 0 <= i < j < |jobs| ==> jobs[i].id > jobs[j].id
  }

  /** `find_matching_job_for_user`: the first job, in the order given (the
      user's jobs by descending id), one of whose title tokens occurs in the
      lower-cased message, and so the matching job with the highest id; None
      when no job matches. */
  method FindMatchingJob(jobs: seq<Job>, message: Option<string>) returns (found: Option<Job>)
    requires ByDescendingId(jobs)
    ensures found.None? <==> forall k :: 0 <= k < |jobs| ==> !JobMatches(jobs[k].title, ToLower(message.GetOr("")))
    ensures found.Some? ==> exists k :: (0 <= k < |jobs| && jobs[k] == found.value
              && JobMatches(jobs[k].title, ToLower(message.GetOr("")))
              && forall e :: 0 <= e < k ==> !JobMatches(jobs[e].title, ToLower(message.GetOr(""))))
    ensures found.Some? ==> forall e :: 0 <= e < |jobs| && JobMatches(jobs[e].title, ToLower(message.GetOr(""))) ==>
              jobs[e].id <= found.value.id
  {
    var lowered := ToLower(message.GetOr(""));
    var n := 0;
    while n < |jobs|
      invariant 0 <= n <= |jobs|
      invariant forall e :: 0 <= e < n ==> !JobMatches(jobs[e].title, lowered)
    {
      var isMatch := TitleMatches(jobs[n].title, lowered);
      if isMatch {
        ghost var k := n;
        assert 0 <= k < |jobs| && jobs[k] == jobs[n] && JobMatches(jobs[k].title, lowered)
               && forall e :: 0 <= e < k ==> !JobMatches(jobs[e].title, lowered);
        return Some(jobs[n]);
      }
      n := n + 1;
    }
    return None;
  }

  /** One job of the loop: a title with tokens, one of which occurs in the
      message. */
  method TitleMatches(title: string, lowered: string) returns (b: bool)
    ensures b == JobMatches(title, lowered)
  {
    var tokens := TitleTokens(title);
    b := false;
    if tokens != [] {
      var matches := CountMatches(tokens, lowered);
      MatchCountPositive(tokens, lowered);
      b := matches >= 1;
    }
  }

  /** The token count of the inner generator expression, as a loop. */
  method CountMatches(tokens: seq<string>, lowered: string) returns (matches: nat)
    ensures matches == MatchCount(tokens, lowered)
  {
    matches := 0;
    var t := 0;
    while t < |tokens|
      invariant 0 <= t <= |tokens|
      invariant matches == MatchCount(tokens[..t], lowered)
    {
      assert tokens[..t + 1][..t] == tokens[..t];
      matches := matches + (if Contains(lowered, tokens[t]) then 1 else 0);
      t := t + 1;
    }
    assert tokens[..|tokens|] == tokens;
  }

  /** No title token fits in an empty message, so an empty message matches
      no job. */
  lemma EmptyMessageMatchesNothing(title: string)
    ensures !JobMatches(title, ToLower(""))
  {
    var tokens := TitleTokens(title);
    forall k | 0 <= k < |tokens| ensures !Contains("", tokens[k]) {
      assert |tokens[k]| > 2;
    }
  }

  // ---------------------------------------------------------------------
  // The resume branch of the chat view
  // ---------------------------------------------------------------------

  const JobNotFoundReply: string := "⚠️ Job not found or you are not authorized for this job."
  const CreateJobFirstReply: string := "⚠️ Create a job first."

  /** The outcome of `Job.objects.get(id=job_id, hr=user)`: the job,
      `Job.DoesNotExist`, or any other exception (a `job_id` that is not an
      integer raises ValueError), which the view does not catch. */
  datatype Lookup = Found(job: Job) | DoesNotExist | Raised

  /** `Uncaught`: the view ends in an exception and Django answers 500. */
  datatype Resolution = Resolved(job: Job) | NotFound(reply: string) | Uncaught

  /** The job the uploads are evaluated against: the posted `job_id` looked
      up among the user's jobs (`lookup`), or without one the user's newest
      job (`latest`). */
  function ResolveJob(jobIdField: string, lookup: string -> Lookup, latest: Option<Job>): (r: Resolution)
    ensures jobIdField != "" ==> (r.Resolved? <==> lookup(jobIdField).Found?)
    ensures jobIdField != "" && r.Resolved? ==> r.job == lookup(jobIdField).job
    ensures r.Uncaught? <==> jobIdField != "" && lookup(jobIdField).Raised?
    ensures jobIdField == "" ==> (r.Resolved? <==> latest.Some?)
    ensures jobIdField == "" && r.Resolved? ==> r.job == latest.value
    ensures r.NotFound? ==> r.reply == if jobIdField != "" then JobNotFoundReply else CreateJobFirstReply
  {
    if jobIdField != "" then
      match lookup(jobIdField)
      case Found(job) => Resolved(job)
      case DoesNotExist => NotFound(JobNotFoundReply)
      case Raised => Uncaught
    else
      match latest
      case Some(job) => Resolved(job)
      case None => NotFound(CreateJobFirstReply)
  }

  /** One entry of the `results` list. */
  datatype FileResult =
    | FileError(filename: string, error: string)
    | FileScored(filename: string, name: Json, email: Json, score: int)

  /** The values a new candidate row is created with. */
  datatype StoredEvaluation = StoredEvaluation(
    jobId: nat,
    name: Json,
    email: Json,
    skills: Json,
    projects: Json,
    education: Json,
    score: int,
    strengths: Json,
    weaknesses: Json)

  /** The collaborators of the evaluation loop. `pdfText` is PDF text
      extraction (empty when it fails), `decodeText` UTF-8 decoding that
      ignores errors, `ai` the model call on the job and the truncated resume
      text, `parse` `json.loads`, `toInt` `int(float(x))` (None when it
      raises), `create` the creation of the row (false when it raises) and
      `saveFile` the later save of the upload into that row (false when it
      raises). No transaction joins the two: a row once created stays. */
  datatype Services = Services(
    pdfText: File -> string,
    decodeText: File -> string,
    ai: (Job, string) -> Outcome<string>,
    parse: string -> Option<Json>,
    toInt: Json -> Option<int>,
    create: StoredEvaluation -> bool,
    saveFile: (StoredEvaluation, File) -> bool)

  /** The score stored for an AI answer: a missing score is 0, a value that
      does not convert is 0, and every value is clamped into [0, 100]. */
  function NormalizeScore(data: map<string, Json>, toInt: Json -> Option<int>): (s: int)
    ensures 0 <= s <= 100
    ensures "score" !in data ==> s == 0
    ensures "score" in data && toInt(data["score"]).None? ==> s == 0
    ensures "score" in data && toInt(data["score"]).Some? && 0 <= toInt(data["score"]).value <= 100 ==>
              s == toInt(data["score"]).value
    ensures "score" in data && toInt(data["score"]).Some? && toInt(data["score"]).value < 0 ==> s == 0
    ensures "score" in data && toInt(data["score"]).Some? && toInt(data["score"]).value > 100 ==> s == 100
  {
    if "score" !in data then 0
    else
      match toInt(data["score"])
      case None => 0
      case Some(v) => Clamp(v)
  }

  predicate IsPointSep(c: char) { c == '\n' || c == ';' || c == '.' }

  function PointSep(): char -> bool {
    (c: char) => IsPointSep(c)
  }

  function StripFn(): string -> string {
    (s: string) => Strip(PySpace, s)
  }

  function NonEmptyText(): string -> bool {
    (s: string) => s != ""
  }

  /** A strength or weakness list given as one string: the pieces between
      newlines, ';' and '.', trimmed, empty pieces dropped. */
  function SplitPoints(s: string): (r: seq<string>)
    ensures forall k :: 0 <= k < |r| ==> r[k] != "" && !IsSpace(PySpace, r[k][0]) && !IsSpace(PySpace, r[k][|r[k]| - 1])
    ensures forall k, i :: 0 <= k < |r| && 0 <= i < |r[k]| ==> !IsPointSep(r[k][i])
  {
    var pieces := Split(s, PointSep());
    var stripped := Map(pieces, StripFn());
    forall k, i | 0 <= k < |stripped| && 0 <= i < |stripped[k]| ensures !IsPointSep(stripped[k][i]) {
      var p := pieces[k];
      assert stripped[k] == Strip(PySpace, p);
      if StartIndex(PySpace, p) != |p| {
        assert stripped[k][i] == p[StartIndex(PySpace, p) + i];
      }
    }
    var r := Filter(stripped, NonEmptyText());
    FilterMembers(stripped, NonEmptyText());
    r
  }

  /** Points written one per line (or separated by ';' or '.'), each already
      trimmed and free of separators, are read back exactly. */
  lemma SplitPointsJoin(items: seq<string>, sep: char)
    requires items != [] && IsPointSep(sep)
    requires forall k :: 0 <= k < |items| ==> items[k] != "" && !IsSpace(PySpace, items[k][0]) && !IsSpace(PySpace, items[k][|items[k]| - 1])
    requires forall k, i :: 0 <= k < |items| && 0 <= i < |items[k]| ==> !IsPointSep(items[k][i])
    ensures SplitPoints(Join(items, [sep])) == items
  {
    SplitJoin(items, sep, PointSep());
    forall k | 0 <= k < |items| ensures Strip(PySpace, items[k]) == items[k] {
      StripStripped(PySpace, items[k]);
    }
    assert Map(items, StripFn()) == items;
    FilterAll(items, NonEmptyText());
  }

  /** A strengths/weaknesses value as stored: a string becomes the list of
      its points; any other value is kept. */
  function Points(j: Json): (r: Json)
    ensures j.JStr? ==> r.JArr? && |r.items| == |SplitPoints(j.s)|
    ensures !j.JStr? ==> r == j
  {
    match j
    case JStr(s) => JArr(Map(SplitPoints(s), (p: string) => JStr(p)))
    case _ => j
  }

  /** The row created for a decoded AI answer. */
  function StoredFor(job: Job, data: map<string, Json>, toInt: Json -> Option<int>): (e: StoredEvaluation)
    ensures e.jobId == job.id && 0 <= e.score <= 100
    ensures JTruthy(e.name) && e.name == Or(Get(data, "name", JNull), JStr("Unknown"))
  {
    StoredEvaluation(
      job.id,
      Or(Get(data, "name", JNull), JStr("Unknown")),
      Or(Get(data, "email", JNull), JStr("")),
      Get(data, "skills_found", JArr([])),
      Get(data, "projects_found", JArr([])),
      Or(Get(data, "education", JStr("")), JStr("")),
      NormalizeScore(data, toInt),
      Points(Get(data, "strengths", JArr([]))),
      Points(Get(data, "weaknesses", JArr([]))))
  }

  datatype Evaluated = Evaluated(result: FileResult, stored: Option<StoredEvaluation>)

  /** The body of the per-file loop for one upload. */
  function EvaluateOne(f: File, job: Job, sv: Services): (r: Evaluated)
    ensures r.result.filename == f.name
    ensures r.result.FileScored? ==> r.stored.Some?
    ensures r.stored.Some? ==> sv.create(r.stored.value)
    ensures r.stored.Some? && !r.result.FileScored? ==>
              && !sv.saveFile(r.stored.value, f)
              && r.result == FileError(f.name, "Server error processing file.")
    ensures r.stored.Some? ==> r.stored.value.jobId == job.id && 0 <= r.stored.value.score <= 100
    ensures !HasResumeExtension(f.name) ==> r.result == FileError(f.name, "Unsupported file type") && r.stored.None?
    ensures r.result.FileScored? ==>
              && 0 <= r.result.score <= 100
              && sv.saveFile(r.stored.value, f)
              && r.result.score == r.stored.value.score
              && r.result.name == r.stored.value.name
              && r.result.email == r.stored.value.email
  {
    var lowered := ToLower(f.name);
    if !EndsWith(lowered, ".pdf") && !EndsWith(lowered, ".txt") then
      Evaluated(FileError(f.name, "Unsupported file type"), None)
    else
      var text := if EndsWith(lowered, ".pdf") then sv.pdfText(f) else sv.decodeText(f);
      if Strip(PySpace, text) == "" then
        Evaluated(FileError(f.name, "No readable text (scanned PDF maybe)."), None)
      else
        match sv.ai(job, Truncate(text, 15000))
        case Failed => Evaluated(FileError(f.name, "AI service error"), None)
        case Done(answer) =>
          var data := ExtractJson(answer, sv.parse);
          if data.None? || !JTruthy(data.value) then
            Evaluated(FileError(f.name, "Invalid AI JSON"), None)
          else if !data.value.JObj? then
            // `data.get` raises on a decoded value that is not an object
            Evaluated(FileError(f.name, "Server error processing file."), None)
          else
            var e := StoredFor(job, data.value.fields, sv.toInt);
            if !sv.create(e) then
              Evaluated(FileError(f.name, "Server error processing file."), None)
            else if !sv.saveFile(e, f) then
              // the row is already committed when the file save raises
              Evaluated(FileError(f.name, "Server error processing file."), Some(e))
            else
              Evaluated(FileScored(f.name, e.name, e.email, e.score), Some(e))
  }

  /** The resume text handed to the AI never exceeds 15000 characters. */
  lemma PromptTextBounded(text: string)
    ensures |Truncate(text, 15000)| <= 15000
  {
    TruncateDefault(text);
  }

  /** The per-file step as a function value. */
  function Evaluator(job: Job, sv: Services): File -> Evaluated {
    (f: File) => EvaluateOne(f, job, sv)
  }

  function ResultOf(step: File -> Evaluated): File -> FileResult {
    (f: File) => step(f).result
  }

  function StoredList(e: Evaluated): seq<StoredEvaluation> {
    if e.stored.Some? then [e.stored.value] else []
  }

  /** The rows a step stores for a list of uploads, in upload order. */
  function StoredBy(files: seq<File>, step: File -> Evaluated): (r: seq<StoredEvaluation>)
    ensures |r| <= |files|
  {
    if files == [] then []
    else StoredBy(files[..|files| - 1], step) + StoredList(step(files[|files| - 1]))
  }

  /** The rows created for a list of uploads, in upload order. */
  function Created(files: seq<File>, job: Job, sv: Services): (r: seq<StoredEvaluation>)
    ensures |r| <= |files|
  {
    StoredBy(files, Evaluator(job, sv))
  }

  /** Every created row belongs to the resolved job and carries a clamped
      score, whether or not its file was then saved. */
  lemma {:induction false} CreatedForJob(files: seq<File>, job: Job, sv: Services)
    ensures forall k :: 0 <= k < |Created(files, job, sv)| ==>
              Created(files, job, sv)[k].jobId == job.id && 0 <= Created(files, job, sv)[k].score <= 100
  {
    if files != [] {
      var init := files[..|files| - 1];
      CreatedForJob(init, job, sv);
      assert Created(files, job, sv) == Created(init, job, sv) + StoredList(EvaluateOne(files[|files| - 1], job, sv));
    }
  }

  /** One more upload adds at most its own row. */
  lemma StoredStep(files: seq<File>, k: nat, step: File -> Evaluated)
    requires k < |files|
    ensures StoredBy(files[..k + 1], step) == StoredBy(files[..k], step) + StoredList(step(files[k]))
  {
    assert files[..k + 1][..k] == files[..k];
  }

  function ProcessedReply(n: nat): string {
    "Processed " + NatToString(n) + " resume(s)."
  }

  /** The per-file loop: exactly one result per upload, in upload order, and
      a reply counting them. */
  method EvaluateAll(files: seq<File>, job: Job, sv: Services)
    returns (results: seq<FileResult>, created: seq<StoredEvaluation>, reply: string)
    ensures |results| == |files|
    ensures forall i :: 0 <= i < |files| ==> results[i] == EvaluateOne(files[i], job, sv).result
    ensures forall i :: 0 <= i < |files| ==> results[i].filename == files[i].name
    ensures created == Created(files, job, sv)
    ensures forall k :: 0 <= k < |created| ==> created[k].jobId == job.id && 0 <= created[k].score <= 100
    ensures reply == ProcessedReply(|files|)
  {
    results, created := EvaluateEach(files, Evaluator(job, sv));
    CreatedForJob(files, job, sv);
    reply := ProcessedReply(|results|);
  }

  /** The loop itself, for any per-file step: one result per upload, in
      upload order, and the rows the step stores. */
  method EvaluateEach(files: seq<File>, step: File -> Evaluated)
    returns (results: seq<FileResult>, created: seq<StoredEvaluation>)
    ensures results == Map(files, ResultOf(step))
    ensures created == StoredBy(files, step)
  {
    results := [];
    created := [];
    var k := 0;
    while k < |files|
      invariant 0 <= k <= |files|
      invariant results == Map(files[..k], ResultOf(step))
      invariant created == StoredBy(files[..k], step)
    {
      var e := step(files[k]);
      StoredStep(files, k, step);
      MapSnoc(files[..k], files[k], ResultOf(step));
      assert files[..k + 1] == files[..k] + [files[k]];
      results := results + [e.result];
      created := created + StoredList(e);
      k := k + 1;
    }
    assert files[..|files|] == files;
  }

  datatype ResumeResponse =
    | JobMissing(status: int, reply: string)
    | ServerError(status: int)
    | Processed(status: int, reply: string, results: seq<FileResult>)

  /** The resume branch of the chat view, taken when files were uploaded: no
      job means a 404 and nothing evaluated; otherwise every upload is
      evaluated against the resolved job. A lookup that raises anything but
      `Job.DoesNotExist` escapes the view: a bare 500 with no reply. */
  method ResumeBranch(files: seq<File>, jobIdField: string, lookup: string -> Lookup,
                      latest: Option<Job>, sv: Services)
    returns (resp: ResumeResponse, created: seq<StoredEvaluation>)
    requires files != []
    ensures ResolveJob(jobIdField, lookup, latest).NotFound? ==>
              resp == JobMissing(404, ResolveJob(jobIdField, lookup, latest).reply) && created == []
    ensures ResolveJob(jobIdField, lookup, latest).Uncaught? ==> resp == ServerError(500) && created == []
    ensures ResolveJob(jobIdField, lookup, latest).Resolved? ==>
              && resp.Processed? && resp.status == 200
              && |resp.results| == |files|
              && resp.reply == ProcessedReply(|files|)
              && created == Created(files, ResolveJob(jobIdField, lookup, latest).job, sv)
  {
    match ResolveJob(jobIdField, lookup, latest)
    case NotFound(msg) =>
      resp := JobMissing(404, msg);
      created := [];
    case Uncaught =>
      resp := ServerError(500);
      created := [];
    case Resolved(job) =>
      var results, reply;
      results, created, reply := EvaluateAll(files, job, sv);
      resp := Processed(200, reply, results);
  }

  // ---------------------------------------------------------------------
  // Job creation: the missing-field check
  // ---------------------------------------------------------------------

  const RequiredFields: seq<string> := ["job_title", "salary_range", "experience_level", "job_type"]

  predicate Present(data: map<string, Json>, field: string) {
    field in data && JTruthy(data[field])
  }

  function IsMissingIn(data: map<string, Json>): string -> bool {
    (f: string) => !Present(data, f)
  }

  /** The required fields whose value is absent or falsy, in the order of
      the required-field list. */
  function MissingFields(data: map<string, Json>): (r: seq<string>)
    ensures IsSubsequence(r, RequiredFields)
    ensures forall i :: 0 <= i < |r| ==> !Present(data, r[i])
    ensures forall i :: 0 <= i < |RequiredFields| && !Present(data, RequiredFields[i]) ==> RequiredFields[i] in r
  {
    FilterIsSubsequence(RequiredFields, IsMissingIn(data));
    Filter(RequiredFields, IsMissingIn(data))
  }

  /** Nothing is missing exactly when every required field holds a truthy
      value. */
  lemma NothingMissingIff(data: map<string, Json>)
    ensures MissingFields(data) == [] <==> forall i :: 0 <= i < |RequiredFields| ==> Present(data, RequiredFields[i])
  {
    if MissingFields(data) != [] {
      var f := MissingFields(data)[0];
      assert f in RequiredFields;
    }
  }

  datatype CreationStep =
    | NeedMore(reply: string, need: seq<string>)
    | Proceed

  /** Job creation stops and asks for the missing fields when any are
      missing; only a complete set of details goes on to create the job. */
  function CreationStepFor(data: map<string, Json>): (r: CreationStep)
    ensures r.Proceed? <==> forall i :: 0 <= i < |RequiredFields| ==> Present(data, RequiredFields[i])
    ensures r.NeedMore? ==> r.need == MissingFields(data) && r.need != []
  {
    NothingMissingIff(data);
    var missing := MissingFields(data);
    if missing != [] then
      NeedMore("Thanks — I have partial details. Could you please provide the missing info: "
               + Join(missing, ", ")
               + "? (e.g. salary_range: '7 LPA', experience_level: 'Fresher', job_type: 'Full-time')",
               missing)
    else Proceed
  }
}
