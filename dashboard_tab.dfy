/** The chat composer of the dashboard: a queue of resumes waiting to be
    sent (only `.pdf` and `.txt` names are admitted), the text input, a
    loading flag and an append-only transcript. Sending is split at its one
    `await`: the first half records the user's entries and builds the
    request, the second half appends the replies and clears the queue. */
module DashboardTab {
  import opened Common
  import opened Text

  datatype Sender = User | Ai

  datatype Entry = Entry(sender: Sender, text: string)

  /** The multipart body of a chat request: the `message` field when the raw
      input is non-empty, and every queued file under `resume`. */
  datatype ChatRequest = ChatRequest(message: Option<string>, resumes: seq<File>)

  /** One element of the `results` array. Absent text fields are "" and absent
      lists are empty; `error` is "" for a file that was scored. `score` is
      None when the field is missing. */
  datatype ChatResult = ChatResult(
    filename: string,
    error: string,
    score: Option<int>,
    name: string,
    email: string,
    skills: seq<string>,
    strengths: seq<string>,
    weaknesses: seq<string>)

  /** The response body: `results` when the back end evaluated files (an
      empty array still counts as present), otherwise a plain `reply`. */
  datatype ChatResponse = ChatResponse(results: Option<seq<ChatResult>>, reply: string)

  const FilesRejectedAlert: string := "⚠️ Only PDF or TXT files allowed. Other files were ignored."
  const DropRejectedAlert: string := "⚠️ Only PDF or TXT allowed."
  const NoReplyText: string := "⚠️ AI didn't respond."
  const ServerErrorText: string := "⚠️ Server error. Please try again later."

  /** The extension allowlist, compared on the lower-cased name. */
  predicate Accepted(f: File) {
    HasResumeExtension(f.name)
  }

  function AcceptedFile(): File -> bool {
    (f: File) => Accepted(f)
  }

  function NameOf(f: File): string { f.name }

  /** `prev.filter((_, i) => i !== index)`: an index outside the list removes
      nothing. */
  function RemoveAt<T>(s: seq<T>, index: int): (r: seq<T>)
    ensures 0 <= index < |s| ==> |r| == |s| - 1
    ensures 0 <= index < |s| ==> forall j :: 0 <= j < index ==> r[j] == s[j]
    ensures 0 <= index < |s| ==> forall j :: index <= j < |r| ==> r[j] == s[j + 1]
    ensures !(0 <= index < |s|) ==> r == s
  {
    if 0 <= index < |s| then s[..index] + s[index + 1..] else s
  }

  /** The entries pushed before the request: the raw input when its trimmed
      form is non-empty, then one upload notice when files are queued. */
  function UserEntries(input: string, files: seq<File>): (es: seq<Entry>)
    ensures |es| == (if Strip(JsSpace, input) != "" then 1 else 0) + (if files != [] then 1 else 0)
    ensures forall i :: 0 <= i < |es| ==> es[i].sender == User
    ensures Strip(JsSpace, input) != "" ==> es[0] == Entry(User, input)
    ensures files != [] ==> es[|es| - 1] == Entry(User, "📎 Uploaded: " + Join(Map(files, NameOf), ", "))
  {
    (if Strip(JsSpace, input) != "" then [Entry(User, input)] else [])
    + (if files != [] then [Entry(User, "📎 Uploaded: " + Join(Map(files, NameOf), ", "))] else [])
  }

  /** `${r.score}`: a missing score prints as "undefined". */
  function ScoreText(score: Option<int>): string {
    match score
    case Some(v) => IntToString(v)
    case None => "undefined"
  }

  function Header(r: ChatResult): string {
    "📄 " + r.filename + " — Score: " + ScoreText(r.score) + "/100\n"
  }

  /** The optional "Name:", "Email:" and "Skills:" lines. */
  function DetailLines(r: ChatResult): string {
    (if r.name != "" then Labelled("Name", r.name) else "")
    + (if r.email != "" then Labelled("Email", r.email) else "")
    + (if r.skills != [] then Labelled("Skills", Join(r.skills, ", ")) else "")
  }

  /** A "label: value" line. */
  function Labelled(key: string, value: string): string {
    key + ": " + value + "\n"
  }

  /** One " • item" line per element. */
  function Bullets(items: seq<string>): string {
    if items == [] then "" else Bullets(items[..|items| - 1]) + BulletLine(items[|items| - 1])
  }

  function BulletLine(item: string): string {
    " • " + item + "\n"
  }

  /** A titled bullet list, absent when the list is empty. */
  function Section(title: string, items: seq<string>): string {
    if items == [] then "" else title + ":\n" + Bullets(items)
  }

  /** The readable summary of a scored file. */
  function SummaryText(r: ChatResult): string {
    Header(r) + DetailLines(r) + Section("Strengths", r.strengths) + Section("Weaknesses", r.weaknesses)
  }

  /** The transcript entry for one result. */
  function ResultEntry(r: ChatResult): Entry {
    if r.error != "" then Entry(Ai, "⚠️ " + r.filename + ": " + r.error)
    else Entry(Ai, SummaryText(r))
  }

  /** The entries appended after the request settles. */
  function Replies(outcome: Outcome<ChatResponse>): (es: seq<Entry>)
    ensures forall i :: 0 <= i < |es| ==> es[i].sender == Ai
    ensures outcome.Failed? ==> es == [Entry(Ai, ServerErrorText)]
    ensures outcome.Done? && outcome.value.results.Some? ==>
              |es| == |outcome.value.results.value|
              && forall i :: 0 <= i < |es| ==> es[i] == ResultEntry(outcome.value.results.value[i])
    ensures outcome.Done? && outcome.value.results.None? ==>
              es == [Entry(Ai, if outcome.value.reply != "" then outcome.value.reply else NoReplyText)]
  {
    match outcome
    case Failed => [Entry(Ai, ServerErrorText)]
    case Done(resp) =>
      match resp.results
      case Some(rs) => Map(rs, ResultEntry)
      case None => [Entry(Ai, if resp.reply != "" then resp.reply else NoReplyText)]
  }

  /** A send always gets at least one AI entry back, except when the back end
      answers with an empty `results` array. */
  lemma RepliesNonEmpty(outcome: Outcome<ChatResponse>)
    ensures |Replies(outcome)| >= 1 <==> !(outcome.Done? && outcome.value.results == Some([]))
  {
  }

  // ---------------------------------------------------------------------
  // One bullet line per strength and weakness
  // ---------------------------------------------------------------------

  const Bullet: char := '•'

  function Count(s: string, c: char): (n: nat)
    ensures n <= |s|
  {
    if s == [] then 0 else (if s[0] == c then 1 else 0) + Count(s[1..], c)
  }

  lemma {:induction false} CountAppend(a: string, b: string, c: char)
    ensures Count(a + b, c) == Count(a, c) + Count(b, c)
  {
    if a != [] {
      assert (a + b)[0] == a[0] && (a + b)[1..] == a[1..] + b;
      CountAppend(a[1..], b, c);
    } else {
      assert a + b == b;
    }
  }

  lemma {:induction false} CountAbsent(s: string, c: char)
    requires c !in s
    ensures Count(s, c) == 0
  {
    if s != [] {
      assert forall j :: 0 <= j < |s| - 1 ==> s[1..][j] == s[j + 1];
      CountAbsent(s[1..], c);
    }
  }

  /** No piece of a list contains the bullet character. */
  predicate BulletFree(items: seq<string>) {
    forall i :: 0 <= i < |items| ==> Bullet !in items[i]
  }

  lemma {:induction false} JoinBulletFree(parts: seq<string>)
    requires BulletFree(parts)
    ensures Bullet !in Join(parts, ", ")
  {
    if |parts| > 1 {
      JoinBulletFree(parts[1..]);
      assert Bullet !in parts[0] + ", ";
    }
  }

  lemma {:induction false} BulletsCount(items: seq<string>)
    requires BulletFree(items)
    ensures Count(Bullets(items), Bullet) == |items|
  {
    if items != [] {
      var init, last := items[..|items| - 1], items[|items| - 1];
      BulletsCount(init);
      CountAppend(Bullets(init), BulletLine(last), Bullet);
      BulletLineCount(last);
    }
  }

  lemma BulletLineCount(item: string)
    requires Bullet !in item
    ensures Count(BulletLine(item), Bullet) == 1
  {
    CountAppend(" • ", item, Bullet);
    CountAppend(" • " + item, "\n", Bullet);
    CountAbsent(item, Bullet);
    CountAbsent("\n", Bullet);
    assert Count(" • ", Bullet) == 1;
  }

  lemma SectionCount(title: string, items: seq<string>)
    requires Bullet !in title && BulletFree(items)
    ensures Count(Section(title, items), Bullet) == |items|
  {
    if items != [] {
      BulletsCount(items);
      CountAppend(title + ":\n", Bullets(items), Bullet);
      CountAbsent(title + ":\n", Bullet);
    }
  }

  lemma HeaderCount(r: ChatResult)
    requires Bullet !in r.filename
    ensures Count(Header(r), Bullet) == 0
  {
    var score := ScoreText(r.score);
    if r.score.Some? && r.score.value < 0 {
      assert score == "-" + NatToString(-r.score.value);
    }
    assert Bullet !in score;
    CountAbsent(Header(r), Bullet);
  }

  lemma DetailCount(r: ChatResult)
    requires Bullet !in r.name && Bullet !in r.email && BulletFree(r.skills)
    ensures Count(DetailLines(r), Bullet) == 0
  {
    JoinBulletFree(r.skills);
    CountAbsent(DetailLines(r), Bullet);
  }

  /** When no field of a scored result contains a bullet character, its
      summary has exactly one bullet line per strength and per weakness. */
  lemma SummaryBulletLines(r: ChatResult)
    requires Bullet !in r.filename && Bullet !in r.name && Bullet !in r.email
    requires BulletFree(r.skills) && BulletFree(r.strengths) && BulletFree(r.weaknesses)
    ensures Count(SummaryText(r), Bullet) == |r.strengths| + |r.weaknesses|
  {
    HeaderCount(r);
    DetailCount(r);
    SectionCount("Strengths", r.strengths);
    SectionCount("Weaknesses", r.weaknesses);
    var s1, s2 := Section("Strengths", r.strengths), Section("Weaknesses", r.weaknesses);
    CountAppend(Header(r), DetailLines(r), Bullet);
    CountAppend(Header(r) + DetailLines(r), s1, Bullet);
    CountAppend(Header(r) + DetailLines(r) + s1, s2, Bullet);
  }

  /** The summary opens with the file name and its score out of 100. */
  lemma SummaryStartsWithScore(r: ChatResult)
    ensures StartsWith(SummaryText(r), "📄 " + r.filename + " — Score: " + ScoreText(r.score) + "/100\n")
  {
    var h := Header(r);
    var s := SummaryText(r);
    ConcatAssoc(h, DetailLines(r), Section("Strengths", r.strengths), Section("Weaknesses", r.weaknesses));
    assert s[..|h|] == h;
  }

  /** Builds a scored file's summary with `text +=` loops over the strengths
      and the weaknesses. */
  method Summarize(r: ChatResult) returns (text: string)
    ensures text == SummaryText(r)
  {
    text := Header(r);
    text := AppendDetails(text, r);
    text := AppendSection(text, "Strengths", r.strengths);
    text := AppendSection(text, "Weaknesses", r.weaknesses);
  }

  /** The `if` chain adding the optional detail lines. */
  method AppendDetails(prefix: string, r: ChatResult) returns (text: string)
    ensures text == prefix + DetailLines(r)
  {
    ghost var name := if r.name != "" then Labelled("Name", r.name) else "";
    ghost var email := if r.email != "" then Labelled("Email", r.email) else "";
    ghost var skills := if r.skills != [] then Labelled("Skills", Join(r.skills, ", ")) else "";
    text := prefix;
    if r.name != "" {
      text := text + Labelled("Name", r.name);
    }
    assert text == prefix + name;
    if r.email != "" {
      text := text + Labelled("Email", r.email);
    }
    assert text == prefix + name + email;
    if r.skills != [] {
      text := text + Labelled("Skills", Join(r.skills, ", "));
    }
    assert text == prefix + name + email + skills;
    ConcatAssoc(prefix, name, email, skills);
  }

  method AppendSection(prefix: string, title: string, items: seq<string>) returns (text: string)
    ensures text == prefix + Section(title, items)
  {
    text := prefix;
    if items == [] {
      return;
    }
    text := text + title + ":\n";
    ghost var head := text;
    var k := 0;
    while k < |items|
      invariant 0 <= k <= |items|
      invariant text == head + Bullets(items[..k])
    {
      assert items[..k + 1][..k] == items[..k];
      AppendAssoc(head, Bullets(items[..k]), BulletLine(items[k]));
      text := text + BulletLine(items[k]);
      k := k + 1;
    }
    assert items[..|items|] == items;
    ConcatAssoc(prefix, title, ":\n", Bullets(items));
  }

  // ---------------------------------------------------------------------
  // The composer state and its handlers
  // ---------------------------------------------------------------------

  class Composer {
    var messages: seq<Entry>
    var input: string
    var isLoading: bool
    var selectedFiles: seq<File>

    constructor ()
      ensures messages == [] && input == "" && !isLoading && selectedFiles == []
    {
      messages := [];
      input := "";
      isLoading := false;
      selectedFiles := [];
    }

    /** `handleFileChange`: admitted files join the end of the queue in the
        order picked; one alert is raised when any file was refused. */
    method FileChange(files: seq<File>) returns (alert: Option<string>)
      modifies this`selectedFiles
      ensures selectedFiles == old(selectedFiles) + Filter(files, AcceptedFile())
      ensures alert.Some? <==> exists i :: 0 <= i < |files| && !Accepted(files[i])
      ensures alert.Some? ==> alert.value == FilesRejectedAlert
    {
      var admitted := Filter(files, AcceptedFile());
      FilterKeepsAll(files, AcceptedFile());
      alert := if |admitted| != |files| then Some(FilesRejectedAlert) else None;
      selectedFiles := selectedFiles + admitted;
    }

    /** `handleDrop`: as a pick, with a shorter alert. */
    method Drop(files: seq<File>) returns (alert: Option<string>)
      modifies this`selectedFiles
      ensures selectedFiles == old(selectedFiles) + Filter(files, AcceptedFile())
      ensures alert.Some? <==> exists i :: 0 <= i < |files| && !Accepted(files[i])
      ensures alert.Some? ==> alert.value == DropRejectedAlert
    {
      var admitted := Filter(files, AcceptedFile());
      FilterKeepsAll(files, AcceptedFile());
      alert := if |admitted| != |files| then Some(DropRejectedAlert) else None;
      selectedFiles := selectedFiles + admitted;
    }

    /** `removeFile`. */
    method RemoveFile(index: int)
      modifies this`selectedFiles
      ensures selectedFiles == RemoveAt(old(selectedFiles), index)
    {
      selectedFiles := RemoveAt(selectedFiles, index);
    }

    /** `handleSend` up to its `await`. Blank input with an empty queue does
        nothing. Otherwise the user's entries are pushed, the input is
        cleared, loading starts and the request carries the raw input (even
        when it is only whitespace) and every queued file. Nothing checks
        `isLoading`: the Enter key sends while a request is in flight. */
    method BeginSend() returns (request: Option<ChatRequest>)
      modifies this`messages, this`input, this`isLoading
      ensures Strip(JsSpace, old(input)) == "" && old(selectedFiles) == [] ==>
                request == None && messages == old(messages) && input == old(input) && isLoading == old(isLoading)
      ensures !(Strip(JsSpace, old(input)) == "" && old(selectedFiles) == []) ==>
                && request == Some(ChatRequest(if old(input) != "" then Some(old(input)) else None, selectedFiles))
                && messages == old(messages) + UserEntries(old(input), selectedFiles)
                && input == "" && isLoading
    {
      if Strip(JsSpace, input) == "" && selectedFiles == [] {
        return None;
      }
      messages := messages + UserEntries(input, selectedFiles);
      request := Some(ChatRequest(if input != "" then Some(input) else None, selectedFiles));
      input := "";
      isLoading := true;
    }

    /** `handleSend` after its `await`: one AI entry per result (or the reply,
        or the server-error notice); then, whatever happened, loading stops
        and the queue is emptied. */
    method FinishSend(outcome: Outcome<ChatResponse>)
      modifies this`messages, this`isLoading, this`selectedFiles
      ensures messages == old(messages) + Replies(outcome)
      ensures !isLoading && selectedFiles == []
    {
      if outcome.Done? && outcome.value.results.Some? {
        var rs := outcome.value.results.value;
        AppendResults(rs);
        assert Map(rs, ResultEntry) == Replies(outcome);
      } else {
        messages := messages + Replies(outcome);
      }
      isLoading := false;
      selectedFiles := [];
    }

    /** The `forEach` over the results: one AI entry per result, in order. */
    method AppendResults(rs: seq<ChatResult>)
      modifies this`messages
      ensures messages == old(messages) + Map(rs, ResultEntry)
    {
      var k := 0;
      while k < |rs|
        invariant 0 <= k <= |rs|
        invariant messages == old(messages) + Map(rs[..k], ResultEntry)
      {
        var entry := EntryFor(rs[k]);
        MapSnoc(rs[..k], rs[k], ResultEntry);
        assert rs[..k + 1] == rs[..k] + [rs[k]];
        messages := messages + [entry];
        k := k + 1;
      }
      assert rs[..|rs|] == rs;
    }
  }

  /** One result's entry: the error notice, or the summary built by
      `Summarize`. */
  method EntryFor(r: ChatResult) returns (entry: Entry)
    ensures entry == ResultEntry(r)
  {
    if r.error != "" {
      entry := Entry(Ai, "⚠️ " + r.filename + ": " + r.error);
    } else {
      var text := Summarize(r);
      entry := Entry(Ai, text);
    }
  }

  /** Whitespace-only input sent together with a file: the transcript shows
      only the upload notice, yet the request still carries the whitespace as
      its message. */
  method WhitespaceWithFileScenario(f: File, blank: string)
    returns (c: Composer, request: Option<ChatRequest>)
    requires blank != "" && AllSpace(JsSpace, blank)
    ensures request == Some(ChatRequest(Some(blank), [f]))
    ensures |c.messages| == 1 && c.messages[0].text == "📎 Uploaded: " + f.name
  {
    c := new Composer();
    c.selectedFiles := [f];
    c.input := blank;
    StripEmptyIff(JsSpace, blank);
    request := c.BeginSend();
  }
}
