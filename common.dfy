/** Values shared by the front end and the back end of the screening console:
    optional values, the outcome of an awaited request, an uploaded file,
    the JavaScript value a `shortlisted` field can hold, and order-preserving
    filtering. */
module Common {

  datatype Option<T> = None | Some(value: T) {
    function GetOr(default: T): T {
      match this
      case Some(v) => v
      case None => default
    }
  }

  /** What an awaited HTTP call produced: a response body, or a thrown error. */
  datatype Outcome<T> = Done(value: T) | Failed

  /** A file picked in the browser or received by a view; only its name is
      inspected, the payload is an opaque handle. */
  datatype File = File(name: string, payload: nat)

  /** A job as the browser receives it from the job list. */
  datatype Job = Job(id: nat, title: string, experienceLevel: string)

  /** The text fields of the compose form, sent as the multipart fields
      `to`, `cc`, `bcc`, `subject` and `message`. */
  datatype MailForm = MailForm(to: string, cc: string, bcc: string, subject: string, message: string)

  /** The JavaScript value found in a candidate record's `shortlisted` field
      or in a shortlist map entry: missing, a boolean, or a number (a database
      driver may hand back 0/1). */
  datatype Flag = Undefined | Bool(b: bool) | Num(n: int)

  /** JavaScript truthiness of a flag. */
  predicate Truthy(f: Flag) {
    match f
    case Undefined => false
    case Bool(b) => b
    case Num(n) => n != 0
  }

  /** `xs.filter(p)`: the elements satisfying `p`, in their original order. */
  function Filter<T(==)>(xs: seq<T>, p: T -> bool): (r: seq<T>)
    ensures |r| <= |xs|
    ensures forall i :: 0 <= i < |r| ==> p(r[i])
  {
    if xs == [] then []
    else (if p(xs[0]) then [xs[0]] else []) + Filter(xs[1..], p)
  }

  /** `xs.map(f)`. */
  function Map<T, U>(xs: seq<T>, f: T -> U): (r: seq<U>)
    ensures |r| == |xs|
    ensures forall i :: 0 <= i < |xs| ==> r[i] == f(xs[i])
  {
    if xs == [] then [] else [f(xs[0])] + Map(xs[1..], f)
  }

  /** Mapping a sequence extended by one element. */
  lemma {:induction false} MapSnoc<T, U>(xs: seq<T>, x: T, f: T -> U)
    ensures Map(xs + [x], f) == Map(xs, f) + [f(x)]
  {
    if xs != [] {
      assert (xs + [x])[1..] == xs[1..] + [x];
      MapSnoc(xs[1..], x, f);
    } else {
      assert xs + [x] == [x];
    }
  }

  /** `a` can be obtained from `b` by deleting elements (order kept). */
  predicate IsSubsequence<T(==)>(a: seq<T>, b: seq<T>) {
    if a == [] then true
    else if b == [] then false
    else if a[0] == b[0] then IsSubsequence(a[1..], b[1..])
    else IsSubsequence(a, b[1..])
  }

  /** The kept elements are exactly the elements satisfying the predicate. */
  lemma {:induction false} FilterMembers<T>(xs: seq<T>, p: T -> bool)
    ensures forall i :: 0 <= i < |Filter(xs, p)| ==> Filter(xs, p)[i] in xs
    ensures forall i :: 0 <= i < |xs| && p(xs[i]) ==> xs[i] in Filter(xs, p)
  {
    if xs != [] {
      FilterMembers(xs[1..], p);
      var h := if p(xs[0]) then [xs[0]] else [];
      assert Filter(xs, p) == h + Filter(xs[1..], p);
      forall i | 0 <= i < |xs| && p(xs[i]) ensures xs[i] in Filter(xs, p) {
        if i > 0 { assert xs[i] == xs[1..][i - 1]; }
      }
    }
  }

  lemma {:induction false} FilterAppend<T>(xs: seq<T>, ys: seq<T>, p: T -> bool)
    ensures Filter(xs + ys, p) == Filter(xs, p) + Filter(ys, p)
  {
    if xs != [] {
      assert (xs + ys)[0] == xs[0] && (xs + ys)[1..] == xs[1..] + ys;
      FilterAppend(xs[1..], ys, p);
    } else {
      assert xs + ys == ys;
    }
  }

  /** A filter's output is an order-preserving subsequence of its input. */
  lemma {:induction false} FilterIsSubsequence<T>(xs: seq<T>, p: T -> bool)
    ensures IsSubsequence(Filter(xs, p), xs)
  {
    if xs != [] {
      FilterIsSubsequence(xs[1..], p);
      if p(xs[0]) {
        assert Filter(xs, p) == [xs[0]] + Filter(xs[1..], p);
        assert Filter(xs, p)[1..] == Filter(xs[1..], p);
      } else {
        assert Filter(xs, p) == Filter(xs[1..], p);
        SubsequenceDropHead(Filter(xs[1..], p), xs);
      }
    }
  }

  /** A subsequence of the tail is a subsequence of the whole. */
  lemma {:induction false} SubsequenceDropHead<T>(a: seq<T>, b: seq<T>)
    requires b != [] && IsSubsequence(a, b[1..])
    ensures IsSubsequence(a, b)
    decreases |b|, |a|
  {
    if a != [] && a[0] == b[0] {
      SubsequenceTail(a, b[1..]);
    }
  }

  /** Dropping the first element of a subsequence keeps it a subsequence. */
  lemma {:induction false} SubsequenceTail<T>(a: seq<T>, t: seq<T>)
    requires a != [] && IsSubsequence(a, t)
    ensures IsSubsequence(a[1..], t)
    decreases |t|, |a|
  {
    if a[1..] != [] {
      if a[0] == t[0] {
        SubsequenceDropHead(a[1..], t);
      } else {
        SubsequenceTail(a, t[1..]);
        SubsequenceDropHead(a[1..], t);
      }
    }
  }

  /** A subsequence of a subsequence is a subsequence. */
  lemma {:induction false} SubsequenceTrans<T>(a: seq<T>, b: seq<T>, c: seq<T>)
    requires IsSubsequence(a, b) && IsSubsequence(b, c)
    ensures IsSubsequence(a, c)
    decreases |c|
  {
    if a != [] {
      if b[0] == c[0] {
        if a[0] == b[0] {
          SubsequenceTrans(a[1..], b[1..], c[1..]);
        } else {
          SubsequenceTrans(a, b[1..], c[1..]);
          SubsequenceDropHead(a, c);
        }
      } else {
        SubsequenceTrans(a, b, c[1..]);
        SubsequenceDropHead(a, c);
      }
    }
  }

  /** Filtering with a stronger predicate keeps a subsequence of the weaker
      predicate's output. */
  lemma {:induction false} FilterNarrows<T>(xs: seq<T>, strong: T -> bool, weak: T -> bool)
    requires forall i :: 0 <= i < |xs| && strong(xs[i]) ==> weak(xs[i])
    ensures IsSubsequence(Filter(xs, strong), Filter(xs, weak))
    ensures |Filter(xs, strong)| <= |Filter(xs, weak)|
  {
    if xs != [] {
      FilterNarrows(xs[1..], strong, weak);
      var s, w := Filter(xs[1..], strong), Filter(xs[1..], weak);
      if strong(xs[0]) {
        assert Filter(xs, strong) == [xs[0]] + s && Filter(xs, weak) == [xs[0]] + w;
        assert Filter(xs, strong)[1..] == s && Filter(xs, weak)[1..] == w;
      } else if weak(xs[0]) {
        assert Filter(xs, strong) == s && Filter(xs, weak) == [xs[0]] + w;
        assert Filter(xs, weak)[1..] == w;
        SubsequenceDropHead(s, Filter(xs, weak));
      } else {
        assert Filter(xs, strong) == s && Filter(xs, weak) == w;
      }
    }
  }

  /** A filter keeps its whole input exactly when every element passes. */
  lemma {:induction false} FilterKeepsAll<T>(xs: seq<T>, p: T -> bool)
    ensures |Filter(xs, p)| == |xs| <==> forall i :: 0 <= i < |xs| ==> p(xs[i])
  {
    if xs != [] {
      FilterKeepsAll(xs[1..], p);
      if !p(xs[0]) {
        assert |Filter(xs, p)| <= |xs[1..]|;
      } else {
        assert forall i :: 1 <= i < |xs| ==> xs[i] == xs[1..][i - 1];
      }
    }
  }

  /** A filter every element passes is the identity. */
  lemma {:induction false} FilterAll<T>(xs: seq<T>, p: T -> bool)
    requires forall i :: 0 <= i < |xs| ==> p(xs[i])
    ensures Filter(xs, p) == xs
  {
    if xs != [] {
      FilterAll(xs[1..], p);
      assert xs == [xs[0]] + xs[1..];
    }
  }

  /** Filtering a sequence extended in front by one element. */
  lemma FilterCons<T>(x: T, xs: seq<T>, p: T -> bool)
    ensures Filter([x] + xs, p) == (if p(x) then [x] else []) + Filter(xs, p)
  {
    assert ([x] + xs)[0] == x && ([x] + xs)[1..] == xs;
  }

  /** Concatenating three pieces does not depend on how they are grouped. */
  lemma AppendAssoc<T>(a: seq<T>, b: seq<T>, c: seq<T>)
    ensures a + b + c == a + (b + c)
  {
  }

  /** Concatenating four pieces does not depend on how they are grouped. */
  lemma ConcatAssoc<T>(a: seq<T>, b: seq<T>, c: seq<T>, d: seq<T>)
    ensures a + b + c + d == a + (b + c + d)
  {
  }

  /** Filtering a sequence extended by one element. */
  lemma FilterSnoc<T>(xs: seq<T>, x: T, p: T -> bool)
    ensures Filter(xs + [x], p) == Filter(xs, p) + (if p(x) then [x] else [])
  {
    FilterAppend(xs, [x], p);
    assert Filter([x], p) == (if p(x) then [x] else []) + Filter([x][1..], p);
  }

  /** A filter no element passes is empty. */
  lemma {:induction false} FilterNone<T>(xs: seq<T>, p: T -> bool)
    requires forall i :: 0 <= i < |xs| ==> !p(xs[i])
    ensures Filter(xs, p) == []
  {
    if xs != [] {
      FilterNone(xs[1..], p);
    }
  }

  /** The complement of a predicate. */
  function Not<T>(p: T -> bool): T -> bool {
    (x: T) => !p(x)
  }

  /** A predicate and its complement split a sequence: together the two
      filters hold every element exactly as often as the input. */
  lemma {:induction false} FilterPartition<T>(xs: seq<T>, p: T -> bool)
    ensures multiset(Filter(xs, p)) + multiset(Filter(xs, Not(p))) == multiset(xs)
    ensures |Filter(xs, p)| + |Filter(xs, Not(p))| == |xs|
  {
    if xs != [] {
      FilterPartition(xs[1..], p);
      assert xs == [xs[0]] + xs[1..];
    }
  }
}
