/** The candidate endpoints: setting a candidate's shortlist flag, and bulk
    email to a comma-separated address list, validated and sent in batches
    of 50. Address validation and mail delivery are parameters. */
module CandidatesViews {
  import opened Common
  import opened Text
  import opened CandidateModels

  // ---------------------------------------------------------------------
  // The shortlist endpoint
  // ---------------------------------------------------------------------

  /** The stored rows after setting the flag of row `id` to `value`. */
  function SetFlag(rows: map<int, CandidateResume>, id: int, value: bool): (r: map<int, CandidateResume>)
    requires id in rows
    ensures r.Keys == rows.Keys
    ensures r[id].shortlisted == value
    ensures r[id] == rows[id].(shortlisted := value)
    ensures forall k :: k in rows && k != id ==> r[k] == rows[k]
  {
    rows[id := rows[id].(shortlisted := value)]
  }

  /** The endpoint sets rather than flips: repeating a request changes
      nothing further. */
  lemma SetFlagIdempotent(rows: map<int, CandidateResume>, id: int, value: bool)
    requires id in rows
    ensures SetFlag(SetFlag(rows, id, value), id, value) == SetFlag(rows, id, value)
  {
  }

  /** Setting a flag to the value it already has leaves the rows unchanged. */
  lemma SetFlagUnchanged(rows: map<int, CandidateResume>, id: int)
    requires id in rows
    ensures SetFlag(rows, id, rows[id].shortlisted) == rows
  {
    assert rows[id].(shortlisted := rows[id].shortlisted) == rows[id];
  }

  datatype ShortlistReply = ShortlistSaved(shortlisted: bool) | CandidateNotFound

  function ShortlistStatus(r: ShortlistReply): int {
    if r.ShortlistSaved? then 200 else 404
  }

  /** The candidate table, as the shortlist endpoint sees it. */
  class CandidateStore {
    var rows: map<int, CandidateResume>

    constructor (initial: map<int, CandidateResume>)
      ensures rows == initial
    {
      rows := initial;
    }

    /** `POST /candidates/shortlist/<id>/`: the row's flag becomes the posted
        value, false when none was posted; an unknown id is a 404 and
        changes nothing. */
    method SetShortlisted(id: int, posted: Option<bool>) returns (reply: ShortlistReply)
      modifies this
      ensures id !in old(rows) ==> reply == CandidateNotFound && rows == old(rows)
      ensures id in old(rows) ==>
                reply == ShortlistSaved(posted.GetOr(false)) && rows == SetFlag(old(rows), id, posted.GetOr(false))
    {
      if id !in rows {
        return CandidateNotFound;
      }
      var value := posted.GetOr(false);
      rows := SetFlag(rows, id, value);
      reply := ShortlistSaved(value);
    }
  }

  /** Two identical requests leave the same flag as one. */
  method RepeatedSetScenario(c: CandidateResume, value: bool)
    returns (store: CandidateStore, first: ShortlistReply, second: ShortlistReply)
    ensures first == second == ShortlistSaved(value)
    ensures store.rows == SetFlag(map[c.id := c], c.id, value)
  {
    store := new CandidateStore(map[c.id := c]);
    first := store.SetShortlisted(c.id, Some(value));
    second := store.SetShortlisted(c.id, Some(value));
    SetFlagIdempotent(map[c.id := c], c.id, value);
  }

  // ---------------------------------------------------------------------
  // Address lists
  // ---------------------------------------------------------------------

  predicate IsComma(c: char) { c == ',' }

  function CommaSep(): char -> bool {
    (c: char) => IsComma(c)
  }

  function StripText(): string -> string {
    (s: string) => Strip(PySpace, s)
  }

  function NonEmpty(): string -> bool {
    (s: string) => s != ""
  }

  /** `[e.strip() for e in csv.split(",") if e.strip()]`. */
  function EmailTokens(csv: string): (r: seq<string>)
    ensures forall k :: 0 <= k < |r| ==> r[k] != "" && !IsSpace(PySpace, r[k][0]) && !IsSpace(PySpace, r[k][|r[k]| - 1])
    ensures forall k, i :: 0 <= k < |r| && 0 <= i < |r[k]| ==> r[k][i] != ','
  {
    var pieces := Split(csv, CommaSep());
    var stripped := Map(pieces, StripText());
    forall k, i | 0 <= k < |stripped| && 0 <= i < |stripped[k]| ensures stripped[k][i] != ',' {
      var p := pieces[k];
      if StartIndex(PySpace, p) != |p| {
        assert stripped[k][i] == p[StartIndex(PySpace, p) + i];
      }
    }
    var r := Filter(stripped, NonEmpty());
    FilterMembers(stripped, NonEmpty());
    r
  }

  /** A blank list has no tokens, so the early return of `_parse_emails` on
      blank input agrees with its general case. */
  lemma BlankHasNoTokens(csv: string)
    requires Strip(PySpace, csv) == ""
    ensures EmailTokens(csv) == []
  {
    StripEmptyIff(PySpace, csv);
    var pieces := Split(csv, CommaSep());
    SplitChars(csv, CommaSep());
    forall k | 0 <= k < |pieces| ensures Strip(PySpace, pieces[k]) == "" {
      assert AllSpace(PySpace, pieces[k]) by {
        forall i | 0 <= i < |pieces[k]| ensures IsSpace(PySpace, pieces[k][i]) {
          var c := pieces[k][i];
          assert c in csv;
          var j :| 0 <= j < |csv| && csv[j] == c;
        }
      }
      StripEmptyIff(PySpace, pieces[k]);
    }
    var stripped := Map(pieces, StripText());
    FilterNone(stripped, NonEmpty());
  }

  /** `_parse_emails(csv)`: (valid, invalid). `csv` is None when the field is
      absent. */
  function Partitioned(csv: Option<string>, isValid: string -> bool): (r: (seq<string>, seq<string>))
  {
    if csv.None? || Strip(PySpace, csv.value) == "" then ([], [])
    else
      var tokens := EmailTokens(csv.value);
      (Filter(tokens, isValid), Filter(tokens, Not(isValid)))
  }

  /** Every token lands in exactly one of the two lists; both keep the
      order of the input and a blank input gives two empty lists. */
  lemma PartitionedSplitsTokens(csv: string, isValid: string -> bool)
    ensures var (valid, invalid) := Partitioned(Some(csv), isValid);
            && multiset(valid) + multiset(invalid) == multiset(EmailTokens(csv))
            && IsSubsequence(valid, EmailTokens(csv)) && IsSubsequence(invalid, EmailTokens(csv))
            && (forall i :: 0 <= i < |valid| ==> isValid(valid[i]))
            && (forall i :: 0 <= i < |invalid| ==> !isValid(invalid[i]))
  {
    PartitionedIsFilter(csv, isValid);
    SplitsTokens(EmailTokens(csv), isValid);
  }

  /** The early return on blank input gives what filtering the (empty) token
      list would. */
  lemma PartitionedIsFilter(csv: string, isValid: string -> bool)
    ensures Partitioned(Some(csv), isValid) == (Filter(EmailTokens(csv), isValid), Filter(EmailTokens(csv), Not(isValid)))
  {
    if Strip(PySpace, csv) == "" {
      BlankHasNoTokens(csv);
    }
  }

  lemma SplitsTokens(tokens: seq<string>, isValid: string -> bool)
    ensures multiset(Filter(tokens, isValid)) + multiset(Filter(tokens, Not(isValid))) == multiset(tokens)
    ensures IsSubsequence(Filter(tokens, isValid), tokens) && IsSubsequence(Filter(tokens, Not(isValid)), tokens)
    ensures forall i :: 0 <= i < |Filter(tokens, Not(isValid))| ==> !isValid(Filter(tokens, Not(isValid))[i])
  {
    FilterPartition(tokens, isValid);
    FilterIsSubsequence(tokens, isValid);
    FilterIsSubsequence(tokens, Not(isValid));
  }

  /** `_parse_emails(csv)`: blank or absent input gives two empty lists,
      otherwise the tokens are split by the validator. */
  method ParseEmails(csv: Option<string>, isValid: string -> bool) returns (valid: seq<string>, invalid: seq<string>)
    ensures valid == Partitioned(csv, isValid).0 && invalid == Partitioned(csv, isValid).1
  {
    if csv.None? || Strip(PySpace, csv.value) == "" {
      return [], [];
    }
    valid, invalid := SortTokens(EmailTokens(csv.value), isValid);
  }

  /** The loop of `_parse_emails`: each token goes to the valid list or the
      invalid list, in order. */
  method SortTokens(emails: seq<string>, isValid: string -> bool) returns (valid: seq<string>, invalid: seq<string>)
    ensures valid == Filter(emails, isValid)
    ensures invalid == Filter(emails, Not(isValid))
  {
    valid, invalid := [], [];
    var k := 0;
    while k < |emails|
      invariant 0 <= k <= |emails|
      invariant valid == Filter(emails[..k], isValid)
      invariant invalid == Filter(emails[..k], Not(isValid))
    {
      assert emails[..k + 1] == emails[..k] + [emails[k]];
      FilterSnoc(emails[..k], emails[k], isValid);
      FilterSnoc(emails[..k], emails[k], Not(isValid));
      if isValid(emails[k]) {
        valid := valid + [emails[k]];
      } else {
        invalid := invalid + [emails[k]];
      }
      k := k + 1;
    }
    assert emails[..|emails|] == emails;
  }

  function SpaceBefore(): string -> string {
    (p: string) => " " + p
  }

  /** Each address after the first preceded by the space of ", ". */
  function Spaced(parts: seq<string>): (r: seq<string>)
    ensures |r| == |parts|
  {
    if parts == [] then [] else [parts[0]] + Map(parts[1..], SpaceBefore())
  }

  lemma {:induction false} JoinSpaced(parts: seq<string>)
    ensures Join(parts, ", ") == Join(Spaced(parts), ",")
  {
    if |parts| > 1 {
      var tail := parts[1..];
      var m := Map(tail, SpaceBefore());
      JoinSpaced(tail);
      JoinSpacedTail(tail);
      assert Spaced(parts) == [parts[0]] + m && |m| >= 1;
      assert ([parts[0]] + m)[1..] == m;
      assert Join(Spaced(parts), ",") == parts[0] + "," + Join(m, ",");
      AppendAssoc(parts[0], ", ", Join(tail, ", "));
      AppendAssoc(parts[0], ",", Join(m, ","));
    }
  }

  lemma {:induction false} JoinSpacedTail(tail: seq<string>)
    requires tail != []
    ensures ", " + Join(Spaced(tail), ",") == "," + Join(Map(tail, SpaceBefore()), ",")
  {
    if |tail| == 1 {
    } else {
      var m := Map(tail, SpaceBefore());
      assert m[1..] == Map(tail[1..], SpaceBefore());
      assert Spaced(tail) == [tail[0]] + m[1..];
      assert Join(Spaced(tail), ",") == tail[0] + "," + Join(m[1..], ",");
      assert Join(m, ",") == " " + tail[0] + "," + Join(m[1..], ",");
    }
  }

  /** The job page's "to" field read back: addresses joined with ", ", each
      non-empty, trimmed and comma-free, parse into the same list. */
  lemma TokensOfJoined(emails: seq<string>)
    requires emails != []
    requires forall k :: 0 <= k < |emails| ==> emails[k] != "" && !IsSpace(PySpace, emails[k][0]) && !IsSpace(PySpace, emails[k][|emails[k]| - 1])
    requires forall k, i :: 0 <= k < |emails| && 0 <= i < |emails[k]| ==> emails[k][i] != ','
    ensures EmailTokens(Join(emails, ", ")) == emails
  {
    var sp := Spaced(emails);
    JoinSpaced(emails);
    SpacedCommaFree(emails);
    SplitJoin(sp, ',', CommaSep());
    SpacedStripped(emails);
    FilterAll(emails, NonEmpty());
  }

  lemma SpacedCommaFree(emails: seq<string>)
    requires emails != []
    requires forall k, i :: 0 <= k < |emails| && 0 <= i < |emails[k]| ==> emails[k][i] != ','
    ensures forall k, i :: 0 <= k < |Spaced(emails)| && 0 <= i < |Spaced(emails)[k]| ==> !CommaSep()(Spaced(emails)[k][i])
  {
    var sp := Spaced(emails);
    forall k, i | 0 <= k < |sp| && 0 <= i < |sp[k]| ensures !IsComma(sp[k][i]) {
      if k > 0 {
        assert sp[k] == " " + emails[k];
        if i > 0 { assert sp[k][i] == emails[k][i - 1]; }
      }
    }
  }

  lemma SpacedStripped(emails: seq<string>)
    requires emails != []
    requires forall k :: 0 <= k < |emails| ==> emails[k] != "" && !IsSpace(PySpace, emails[k][0]) && !IsSpace(PySpace, emails[k][|emails[k]| - 1])
    ensures Map(Spaced(emails), StripText()) == emails
  {
    var sp := Spaced(emails);
    forall k | 0 <= k < |sp| ensures StripText()(sp[k]) == emails[k] {
      SpacedStrippedAt(emails, k);
    }
  }

  lemma SpacedStrippedAt(emails: seq<string>, k: nat)
    requires k < |emails|
    requires emails[k] != "" && !IsSpace(PySpace, emails[k][0]) && !IsSpace(PySpace, emails[k][|emails[k]| - 1])
    ensures Strip(PySpace, Spaced(emails)[k]) == emails[k]
  {
    if k == 0 {
      StripStripped(PySpace, emails[0]);
    } else {
      var m := Map(emails[1..], SpaceBefore());
      assert Spaced(emails) == [emails[0]] + m;
      assert Spaced(emails)[k] == m[k - 1];
      assert emails[1..][k - 1] == emails[k];
      assert m[k - 1] == " " + emails[k];
      assert AllSpace(PySpace, " ");
      StripPadded(PySpace, " ", emails[k]);
    }
  }

  // ---------------------------------------------------------------------
  // Batches
  // ---------------------------------------------------------------------

  const BatchSize: nat := 50

  /** `[xs[i:i + 50] for i in range(0, len(xs), 50)]`. */
  function Batches(xs: seq<string>): (bs: seq<seq<string>>)
    ensures forall k :: 0 <= k < |bs| ==> 1 <= |bs[k]| <= BatchSize
    ensures |bs| == (|xs| + BatchSize - 1) / BatchSize
    decreases |xs|
  {
    if xs == [] then []
    else if |xs| <= BatchSize then [xs]
    else [xs[..BatchSize]] + Batches(xs[BatchSize..])
  }

  function Flatten(bs: seq<seq<string>>): seq<string> {
    if bs == [] then [] else bs[0] + Flatten(bs[1..])
  }

  /** The batches cover the list exactly, in order. */
  lemma {:induction false} FlattenBatches(xs: seq<string>)
    ensures Flatten(Batches(xs)) == xs
    decreases |xs|
  {
    if |xs| > BatchSize {
      FlattenBatches(xs[BatchSize..]);
      assert xs == xs[..BatchSize] + xs[BatchSize..];
    } else if xs != [] {
      assert xs + [] == xs;
    }
  }

  /** Batch `k` is the slice starting at 50k; all but the last are full. */
  lemma {:induction false} BatchAt(xs: seq<string>, k: nat)
    requires k < |Batches(xs)|
    ensures 50 * k < |xs|
    ensures Batches(xs)[k] == xs[50 * k..if 50 * k + 50 <= |xs| then 50 * k + 50 else |xs|]
    decreases |xs|
  {
    if k > 0 {
      BatchAt(xs[BatchSize..], k - 1);
      assert xs[BatchSize..][50 * (k - 1)..] == xs[50 * k..];
    }
  }

  // ---------------------------------------------------------------------
  // The bulk email endpoint
  // ---------------------------------------------------------------------

  /** One message handed to the mail connection: its To list, the full CC
      and BCC lists, and the subject. */
  datatype Mail = Mail(to: seq<string>, cc: seq<string>, bcc: seq<string>, subject: string)

  datatype EmailReply =
    | Rejected(error: string)
    | InvalidAddresses(invalid: seq<string>)
    | Finished(success: bool, sent: nat)

  function EmailStatus(r: EmailReply): int {
    match r
    case Rejected(_) => 400
    case InvalidAddresses(_) => 400
    case Finished(ok, _) => if ok then 200 else 500
  }

  /** Index of the first batch whose delivery raises; `n` when none does. */
  function FirstFailed(delivered: nat -> bool, n: nat): (f: nat)
    ensures f <= n
    ensures forall k :: 0 <= k < f ==> delivered(k)
    ensures f < n ==> !delivered(f)
  {
    if n == 0 then 0
    else
      var f := FirstFailed(delivered, n - 1);
      if f < n - 1 then f else if delivered(n - 1) then n else n - 1
  }

  function MailsFor(batches: seq<seq<string>>, cc: seq<string>, bcc: seq<string>, subject: string): (ms: seq<Mail>)
    ensures |ms| == |batches|
    ensures forall k :: 0 <= k < |ms| ==> ms[k] == Mail(batches[k], cc, bcc, subject)
  {
    if batches == [] then [] else [Mail(batches[0], cc, bcc, subject)] + MailsFor(batches[1..], cc, bcc, subject)
  }

  /** All invalid addresses of the three fields, in To, CC, BCC order. */
  function InvalidAll(to: Option<string>, cc: Option<string>, bcc: Option<string>, isValid: string -> bool): seq<string> {
    Partitioned(to, isValid).1 + Partitioned(cc, isValid).1 + Partitioned(bcc, isValid).1
  }

  /** `POST /candidates/send-email/`. The subject and then the message must
      be non-blank; then any invalid address in any field rejects the whole
      request; then the valid To addresses go out in batches of 50, each
      with the full CC and BCC lists, stopping at the first batch whose
      delivery raises. `delivered(k)` is whether batch `k` goes through. */
  method SendBulkEmail(to: Option<string>, cc: Option<string>, bcc: Option<string>,
                       subject: string, message: string,
                       isValid: string -> bool, delivered: nat -> bool)
    returns (reply: EmailReply, mails: seq<Mail>)
    ensures Strip(PySpace, subject) == "" ==> reply == Rejected("Subject is required") && mails == []
    ensures Strip(PySpace, subject) != "" && Strip(PySpace, message) == "" ==> reply == Rejected("Message is required") && mails == []
    ensures Strip(PySpace, subject) != "" && Strip(PySpace, message) != "" && InvalidAll(to, cc, bcc, isValid) != [] ==>
              reply == InvalidAddresses(InvalidAll(to, cc, bcc, isValid)) && mails == []
    ensures Strip(PySpace, subject) != "" && Strip(PySpace, message) != "" && InvalidAll(to, cc, bcc, isValid) == [] ==>
              && reply.Finished?
              && BatchesSent(Partitioned(to, isValid).0, Partitioned(cc, isValid).0, Partitioned(bcc, isValid).0,
                             Strip(PySpace, subject), delivered, reply.success, reply.sent, mails)
  {
    mails := [];
    var subj := Strip(PySpace, subject);
    var msg := Strip(PySpace, message);
    if subj == "" {
      return Rejected("Subject is required"), [];
    }
    if msg == "" {
      return Rejected("Message is required"), [];
    }
    var toList, invalidTo := ParseEmails(to, isValid);
    var ccList, invalidCc := ParseEmails(cc, isValid);
    var bccList, invalidBcc := ParseEmails(bcc, isValid);
    var invalid := invalidTo + invalidCc + invalidBcc;
    if invalid != [] {
      return InvalidAddresses(invalid), [];
    }

    var success, sent;
    success, sent, mails := SendBatches(toList, ccList, bccList, subj, delivered);
    reply := Finished(success, sent);
  }

  /** The outcome of the batch loop: batch `k` goes out with the full CC and
      BCC lists; every batch before the first failed delivery, and that one,
      is handed to the connection; success means no delivery failed, and the
      count is the whole To list on success and 50 per delivered batch
      otherwise. */
  predicate BatchesSent(toList: seq<string>, ccList: seq<string>, bccList: seq<string>, subj: string,
                        delivered: nat -> bool, success: bool, sent: nat, mails: seq<Mail>)
  {
    var bs := Batches(toList);
    var f := FirstFailed(delivered, |bs|);
    && (success <==> f == |bs|)
    && (success ==> sent == |toList|)
    && (!success ==> sent == BatchSize * f)
    && mails == MailsFor(bs[..if f < |bs| then f + 1 else f], ccList, bccList, subj)
  }

  /** The batch loop: batch `k` holds the To addresses from `50 * k`, goes
      out with the full CC and BCC lists, and adds its size to the count
      once delivered; the first failed delivery ends the loop. */
  method SendBatches(toList: seq<string>, ccList: seq<string>, bccList: seq<string>, subj: string,
                     delivered: nat -> bool)
    returns (success: bool, sent: nat, mails: seq<Mail>)
    ensures BatchesSent(toList, ccList, bccList, subj, delivered, success, sent, mails)
  {
    ghost var bs := Batches(toList);
    ghost var f := FirstFailed(delivered, |bs|);
    mails := [];
    sent := 0;
    var i := 0;
    var k := 0;
    while i < |toList|
      invariant i == BatchSize * k
      invariant k <= f && k <= |bs| && (k < |bs| <==> i < |toList|)
      invariant sent == if i <= |toList| then i else |toList|
      invariant mails == MailsFor(bs[..k], ccList, bccList, subj)
      decreases |toList| - i
    {
      var end := if i + BatchSize <= |toList| then i + BatchSize else |toList|;
      BatchStep(toList, i, end, k, ccList, bccList, subj);
      var batch := toList[i..end];
      mails := mails + [Mail(batch, ccList, bccList, subj)];
      if !delivered(k) {
        assert k == f;
        return false, sent, mails;
      }
      sent := sent + |batch|;
      i := i + BatchSize;
      k := k + 1;
      BatchCount(|toList|, k);
    }
    assert k == |bs| == f;
    assert bs[..k] == bs;
    success := true;
  }

  /** Batch `k`, taken while `50 * k` is still an index, is the slice from
      `50 * k` and extends the planned messages by one. */
  lemma BatchStep(toList: seq<string>, i: nat, end: nat, k: nat, cc: seq<string>, bcc: seq<string>, subject: string)
    requires i == BatchSize * k < |toList|
    requires end == if i + BatchSize <= |toList| then i + BatchSize else |toList|
    ensures k < |Batches(toList)|
    ensures Batches(toList)[k] == toList[i..end]
    ensures MailsFor(Batches(toList)[..k + 1], cc, bcc, subject)
            == MailsFor(Batches(toList)[..k], cc, bcc, subject) + [Mail(toList[i..end], cc, bcc, subject)]
  {
    var bs := Batches(toList);
    BatchCount(|toList|, k);
    BatchAt(toList, k);
    assert bs[..k + 1] == bs[..k] + [bs[k]];
    MailsSnoc(bs[..k], bs[k], cc, bcc, subject);
  }

  /** Batch `k` exists exactly when `50 * k` is an index of the list. */
  lemma BatchCount(n: nat, k: nat)
    ensures k < (n + BatchSize - 1) / BatchSize <==> BatchSize * k < n
  {
  }

  lemma {:induction false} MailsSnoc(bs: seq<seq<string>>, b: seq<string>, cc: seq<string>, bcc: seq<string>, subject: string)
    ensures MailsFor(bs + [b], cc, bcc, subject) == MailsFor(bs, cc, bcc, subject) + [Mail(b, cc, bcc, subject)]
  {
  }

  function HasCc(a: string): Mail -> bool {
    (m: Mail) => a in m.cc
  }

  /** Every CC address receives one copy per batch. */
  lemma CcCopiesPerBatch(batches: seq<seq<string>>, cc: seq<string>, bcc: seq<string>, subject: string, a: string)
    requires a in cc
    ensures |Filter(MailsFor(batches, cc, bcc, subject), HasCc(a))| == |batches|
  {
    FilterAll(MailsFor(batches, cc, bcc, subject), HasCc(a));
  }

  /** Some message of the plan reaches `a` as To, CC or BCC. */
  predicate Reached(mails: seq<Mail>, a: string) {
    exists k :: 0 <= k < |mails| && (a in mails[k].to || a in mails[k].cc || a in mails[k].bcc)
  }

  /** The messages sent when every delivery succeeds, as written: one per
      batch of To addresses, none at all without To addresses. */
  function PlannedMails(to: seq<string>, cc: seq<string>, bcc: seq<string>, subject: string): seq<Mail> {
    MailsFor(Batches(to), cc, bcc, subject)
  }

  /** A request with only CC addresses sends nothing, although the code
      carries a branch meant to address such a message. */
  lemma CcOnlySendsNothing(cc: seq<string>, bcc: seq<string>, subject: string)
    requires cc != []
    ensures PlannedMails([], cc, bcc, subject) == []
    ensures !Reached(PlannedMails([], cc, bcc, subject), cc[0])
  {
  }

  /** The evident intent of that branch: without To addresses, one message
      goes to the CC and BCC addresses. */
  function IntendedMails(to: seq<string>, cc: seq<string>, bcc: seq<string>, subject: string): seq<Mail> {
    if to == [] && cc + bcc != [] then [Mail(cc + bcc, cc, bcc, subject)]
    else PlannedMails(to, cc, bcc, subject)
  }

  lemma {:induction false} InSomeBatch(xs: seq<string>, a: string)
    requires a in xs
    ensures exists k :: 0 <= k < |Batches(xs)| && a in Batches(xs)[k]
    decreases |xs|
  {
    if |xs| > BatchSize {
      if a in xs[..BatchSize] {
        assert a in Batches(xs)[0];
      } else {
        assert xs == xs[..BatchSize] + xs[BatchSize..];
        InSomeBatch(xs[BatchSize..], a);
        var k :| 0 <= k < |Batches(xs[BatchSize..])| && a in Batches(xs[BatchSize..])[k];
        assert Batches(xs)[k + 1] == Batches(xs[BatchSize..])[k];
      }
    } else {
      assert Batches(xs)[0] == xs;
    }
  }

  /** Under the intended plan every To, CC and BCC address is reached. */
  lemma IntendedReachesAll(to: seq<string>, cc: seq<string>, bcc: seq<string>, subject: string, a: string)
    requires a in to || a in cc || a in bcc
    ensures Reached(IntendedMails(to, cc, bcc, subject), a)
  {
    var ms := IntendedMails(to, cc, bcc, subject);
    if to == [] {
      assert ms[0].cc == cc && ms[0].bcc == bcc;
    } else {
      InSomeBatch(to, to[0]);
      assert |Batches(to)| > 0;
      if a in to {
        InSomeBatch(to, a);
        var k :| 0 <= k < |Batches(to)| && a in Batches(to)[k];
        assert a in ms[k].to;
      } else {
        assert ms[0].cc == cc && ms[0].bcc == bcc;
      }
    }
  }
}
