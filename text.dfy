/** String operations the screening console relies on, from both JavaScript
    (`toLowerCase`, `trim`, `includes`, `endsWith`, `split`, `join`) and
    Python (`lower`, `strip`, `str.split`, `re.split`, `int`, f-strings).
    Case mapping and whitespace are modelled on ASCII. */
module Text {
  import Common

  predicate IsUpper(c: char) { 'A' <= c <= 'Z' }

  function LowerChar(c: char): (r: char)
    ensures !IsUpper(r)
    ensures !IsUpper(c) ==> r == c
  {
    if IsUpper(c) then (c as int + 32) as char else c
  }

  /** `s.toLowerCase()` / `s.lower()`. */
  function ToLower(s: string): (r: string)
    ensures |r| == |s|
    ensures forall i :: 0 <= i < |s| ==> r[i] == LowerChar(s[i])
  {
    if s == [] then [] else [LowerChar(s[0])] + ToLower(s[1..])
  }

  /** Whose notion of whitespace: JavaScript's `trim()` or Python's
      `str.strip()`. On ASCII they differ only in the four separators
      U+001C to U+001F, which Python strips and JavaScript keeps. */
  datatype Space = JsSpace | PySpace

  /** Characters removed by `trim()` (JsSpace) or `strip()` (PySpace). */
  predicate IsSpace(sp: Space, c: char) {
    || c == ' ' || c == '\t' || c == '\n' || c == '\r' || c == '\U{B}' || c == '\U{C}'
    || (sp == PySpace && '\U{1C}' <= c <= '\U{1F}')
  }

  predicate AllSpace(sp: Space, s: string) {
    forall i :: 0 <= i < |s| ==> IsSpace(sp, s[i])
  }

  /** Index of the first character that `trimStart` keeps. */
  function StartIndex(sp: Space, s: string): (i: nat)
    ensures i <= |s| && AllSpace(sp, s[..i])
    ensures i < |s| ==> !IsSpace(sp, s[i])
  {
    if s != [] && IsSpace(sp, s[0]) then
      var k := StartIndex(sp, s[1..]);
      assert s[..k + 1] == [s[0]] + s[1..][..k];
      k + 1
    else 0
  }

  /** Index just past the last character that `trimEnd` keeps. */
  function EndIndex(sp: Space, s: string): (j: nat)
    ensures j <= |s| && AllSpace(sp, s[j..])
    ensures j > 0 ==> !IsSpace(sp, s[j - 1])
  {
    if s != [] && IsSpace(sp, s[|s| - 1]) then
      var k := EndIndex(sp, s[..|s| - 1]);
      assert s[k..] == s[..|s| - 1][k..] + [s[|s| - 1]];
      k
    else |s|
  }

  /** `s.trim()` / `s.strip()`: the slice of `s` left after removing leading
      and trailing whitespace. */
  function Strip(sp: Space, s: string): (r: string)
    ensures StartIndex(sp, s) <= EndIndex(sp, s) || StartIndex(sp, s) == |s|
    ensures r == if StartIndex(sp, s) == |s| then "" else s[StartIndex(sp, s)..EndIndex(sp, s)]
    ensures r != [] ==> !IsSpace(sp, r[0]) && !IsSpace(sp, r[|r| - 1])
  {
    var i, j := StartIndex(sp, s), EndIndex(sp, s);
    if i == |s| then ""
    else
      s[i..j]
  }

  /** Stripping yields the empty string exactly for all-whitespace input. */
  lemma StripEmptyIff(sp: Space, s: string)
    ensures Strip(sp, s) == "" <==> AllSpace(sp, s)
  {
    if StartIndex(sp, s) == |s| {
      assert s[..|s|] == s;
    } else {
      assert !IsSpace(sp, s[StartIndex(sp, s)]);
    }
  }

  /** A string with no surrounding whitespace is its own strip. */
  lemma StripStripped(sp: Space, s: string)
    requires s == [] || (!IsSpace(sp, s[0]) && !IsSpace(sp, s[|s| - 1]))
    ensures Strip(sp, s) == s
  {
    if s != [] {
      assert [] + s == s;
      StripPadded(sp, [], s);
    }
  }

  /** Stripping whitespace padding in front of a trimmed, non-empty string
      gives that string back. */
  lemma StripPadded(sp: Space, w: string, e: string)
    requires AllSpace(sp, w)
    requires e != [] && !IsSpace(sp, e[0]) && !IsSpace(sp, e[|e| - 1])
    ensures Strip(sp, w + e) == e
  {
    var s := w + e;
    assert s[..|w|] == w && s[|w|] == e[0];
    StartIndexAt(sp, s, |w|);
    assert s[|s| - 1] == e[|e| - 1];
    assert s[|w|..|s|] == e;
  }

  lemma {:induction false} StartIndexAt(sp: Space, p: string, k: nat)
    requires k < |p| && AllSpace(sp, p[..k]) && !IsSpace(sp, p[k])
    ensures StartIndex(sp, p) == k
  {
    if k > 0 {
      assert p[1..][..k - 1] == p[..k][1..];
      StartIndexAt(sp, p[1..], k - 1);
    }
  }

  predicate IsInfoSeparator(c: char) { '\U{1C}' <= c <= '\U{1F}' }

  /** The two notions of whitespace agree on a string without the
      separators U+001C to U+001F. */
  lemma {:induction false} StripKindsAgree(s: string)
    requires forall i :: 0 <= i < |s| ==> !IsInfoSeparator(s[i])
    ensures Strip(PySpace, s) == Strip(JsSpace, s)
  {
    StartIndexKinds(s);
    EndIndexKinds(s);
  }

  lemma {:induction false} StartIndexKinds(s: string)
    requires forall i :: 0 <= i < |s| ==> !IsInfoSeparator(s[i])
    ensures StartIndex(PySpace, s) == StartIndex(JsSpace, s)
  {
    if s != [] {
      StartIndexKinds(s[1..]);
    }
  }

  lemma {:induction false} EndIndexKinds(s: string)
    requires forall i :: 0 <= i < |s| ==> !IsInfoSeparator(s[i])
    ensures EndIndex(PySpace, s) == EndIndex(JsSpace, s)
  {
    if s != [] {
      EndIndexKinds(s[..|s| - 1]);
    }
  }

  /** A lone separator U+001C is stripped by Python and kept by JavaScript. */
  lemma InfoSeparatorStripped()
    ensures Strip(PySpace, "\U{1C}") == "" && Strip(JsSpace, "\U{1C}") == "\U{1C}"
  {
    StripEmptyIff(PySpace, "\U{1C}");
    StripStripped(JsSpace, "\U{1C}");
  }

  predicate StartsWith(s: string, prefix: string) {
    |prefix| <= |s| && s[..|prefix|] == prefix
  }

  /** `s.endsWith(suffix)`. */
  predicate EndsWith(s: string, suffix: string) {
    |suffix| <= |s| && s[|s| - |suffix|..] == suffix
  }

  /** The resume extensions both ends admit: a name ending in ".pdf" or
      ".txt", compared case-insensitively. */
  predicate HasResumeExtension(name: string) {
    EndsWith(ToLower(name), ".pdf") || EndsWith(ToLower(name), ".txt")
  }

  predicate OccursAt(s: string, sub: string, i: int) {
    0 <= i <= |s| - |sub| && s[i..i + |sub|] == sub
  }

  /** `s.includes(sub)` / `sub in s`. */
  predicate Contains(s: string, sub: string) {
    exists i :: 0 <= i <= |s| - |sub| && OccursAt(s, sub, i)
  }

  /** The empty string occurs in every string. */
  lemma ContainsEmpty(s: string)
    ensures Contains(s, "")
  {
    assert OccursAt(s, "", 0);
  }

  /** The pieces of `s` between separator characters, empty pieces included:
      `s.split(",")` and Python's `re.split` with a one-character alternation. */
  function Split(s: string, isSep: char -> bool): (r: seq<string>)
    ensures |r| >= 1
    ensures forall k, i :: 0 <= k < |r| && 0 <= i < |r[k]| ==> !isSep(r[k][i])
  {
    if s == [] then [""]
    else
      var rest := Split(s[1..], isSep);
      if isSep(s[0]) then [""] + rest
      else
        assert forall i :: 0 <= i < |rest[0]| ==> !isSep(rest[0][i]);
        [[s[0]] + rest[0]] + rest[1..]
  }

  /** Every character of a piece comes from the split string. */
  lemma {:induction false} SplitChars(s: string, isSep: char -> bool)
    ensures forall k, i :: 0 <= k < |Split(s, isSep)| && 0 <= i < |Split(s, isSep)[k]| ==> Split(s, isSep)[k][i] in s
  {
    if s != [] {
      SplitChars(s[1..], isSep);
      assert forall c :: c in s[1..] ==> c in s;
    }
  }

  /** `parts.join(sep)`. */
  function Join(parts: seq<string>, sep: string): string {
    if parts == [] then ""
    else if |parts| == 1 then parts[0]
    else parts[0] + sep + Join(parts[1..], sep)
  }

  /** Splitting on a separator character undoes joining with it, provided no
      piece contains a separator. */
  lemma {:induction false} SplitJoin(parts: seq<string>, c: char, isSep: char -> bool)
    requires parts != [] && isSep(c)
    requires forall k, i :: 0 <= k < |parts| && 0 <= i < |parts[k]| ==> !isSep(parts[k][i])
    ensures Split(Join(parts, [c]), isSep) == parts
  {
    if |parts| == 1 {
      SplitNoSep(parts[0], isSep);
    } else {
      SplitJoin(parts[1..], c, isSep);
      SplitPrefix(parts[0], [c] + Join(parts[1..], [c]), isSep);
      assert parts[0] + [c] + Join(parts[1..], [c]) == parts[0] + ([c] + Join(parts[1..], [c]));
      assert ([c] + Join(parts[1..], [c]))[1..] == Join(parts[1..], [c]);
    }
  }

  lemma {:induction false} SplitNoSep(s: string, isSep: char -> bool)
    requires forall i :: 0 <= i < |s| ==> !isSep(s[i])
    ensures Split(s, isSep) == [s]
  {
    if s != [] {
      SplitNoSep(s[1..], isSep);
      assert !isSep(s[0]);
      assert [s[0]] + s[1..] == s;
    }
  }

  /** A separator-free prefix glues onto the first piece of what follows a
      separator. */
  lemma {:induction false} SplitPrefix(w: string, t: string, isSep: char -> bool)
    requires t != [] && isSep(t[0])
    requires forall i :: 0 <= i < |w| ==> !isSep(w[i])
    ensures Split(w + t, isSep) == [w] + Split(t[1..], isSep)
  {
    if w == [] {
      assert w + t == t;
      assert Split(t, isSep) == [""] + Split(t[1..], isSep);
    } else {
      assert (w + t)[0] == w[0] && (w + t)[1..] == w[1..] + t;
      SplitPrefix(w[1..], t, isSep);
      assert [w[0]] + w[1..] == w;
    }
  }

  function DigitChar(d: nat): (c: char)
    requires d < 10
    ensures '0' <= c <= '9'
  {
    ('0' as int + d) as char
  }

  /** Decimal rendering of a natural number, as in `f"{n}"` / `${n}`. */
  function NatToString(n: nat): (r: string)
    ensures |r| >= 1
    ensures forall i :: 0 <= i < |r| ==> '0' <= r[i] <= '9'
    decreases n
  {
    if n < 10 then [DigitChar(n)] else NatToString(n / 10) + [DigitChar(n % 10)]
  }

  /** Decimal rendering of an integer, with a leading '-' when negative. */
  function IntToString(i: int): (r: string)
    ensures |r| >= 1
  {
    if i < 0 then "-" + NatToString(-i) else NatToString(i)
  }

  predicate IsDigits(s: string) {
    |s| >= 1 && forall i :: 0 <= i < |s| ==> '0' <= s[i] <= '9'
  }

  function DigitsValue(s: string): nat
    requires forall i :: 0 <= i < |s| ==> '0' <= s[i] <= '9'
  {
    if s == [] then 0 else DigitsValue(s[..|s| - 1]) * 10 + (s[|s| - 1] as int - '0' as int)
  }

  /** Python's `int(s)` on a regex digit capture, read on ASCII digits: a
      value for a non-empty string of '0'..'9', and None for any other
      string. */
  function ParseDigits(s: string): (r: Common.Option<nat>)
    ensures r.Some? <==> IsDigits(s)
  {
    if IsDigits(s) then Common.Some(DigitsValue(s)) else Common.None
  }

  /** Parsing the decimal rendering of `n` gives back `n`. */
  lemma {:induction false} ParseNatToString(n: nat)
    ensures ParseDigits(NatToString(n)) == Common.Some(n)
    decreases n
  {
    var s := NatToString(n);
    if n < 10 {
      assert s[..0] == [] && IsDigits(s);
      assert DigitsValue(s) == DigitsValue(s[..0]) * 10 + (s[0] as int - '0' as int);
    } else {
      ParseNatToString(n / 10);
      assert s[..|s| - 1] == NatToString(n / 10);

    }
  }
}
