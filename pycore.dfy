/** Python built-ins that the game's logic relies on, stated over Dafny's
    unbounded integers, reals and sequences. Each function here is one
    builtin or `str` method as the game uses it. */
module PyCore {

  datatype Option<+T> = None | Some(value: T)

  /** The exceptions the modelled code can raise. A `Result` that carries one
      stands for the exception propagating out of the modelled call. */
  datatype PyError =
    | ValueError        // int()/float() of a malformed string; wrong number of items to unpack
    | ZeroDivisionError
    | TypeError         // arithmetic on None, subscripting None or a value of the wrong type
    | IndexError
    | KeyError
    | UnboundLocalError // a local read before any assignment
    | AttributeError    // an attribute read on None
    | TimerRunning      // Timer.start while a clock exists
    | TimerNotRunning   // Timer.reset while no clock exists

  datatype Result<+T> = Ok(value: T) | Err(error: PyError)

  /** int(x) on a float: truncation toward zero. */
  function Trunc(x: real): (r: int)
    ensures 0.0 <= x ==> r as real <= x < r as real + 1.0
    ensures x < 0.0 ==> r as real - 1.0 < x <= r as real
  {
    if x >= 0.0 then x.Floor else -((-x).Floor)
  }

  /** round(x, 2), to the nearest hundredth, halves rounded up. */
  function Round2(x: real): (r: real)
    ensures x - 0.005 < r <= x + 0.005
    ensures (r * 100.0).Floor as real == r * 100.0
  {
    (x * 100.0 + 0.5).Floor as real / 100.0
  }

  function Abs(x: real): (r: real)
    ensures r >= 0.0 && (r == x || r == -x)
  {
    if x < 0.0 then -x else x
  }

  function Min(a: int, b: int): (r: int)
    ensures r <= a && r <= b && (r == a || r == b)
  {
    if a <= b then a else b
  }

  /** s.replace(c, '') for a one-character c. */
  function RemoveChar(s: string, c: char): (r: string)
    ensures c !in r
    ensures |r| <= |s|
    ensures forall k :: 0 <= k < |r| ==> r[k] in s
    ensures c !in s ==> r == s
  {
    if s == [] then []
    else if s[0] == c then RemoveChar(s[1..], c)
    else [s[0]] + RemoveChar(s[1..], c)
  }

  /** s[:-1]: every character but the last, and '' for ''. */
  function DropLast(s: string): (r: string)
    ensures |s| > 0 ==> |r| == |s| - 1 && s == r + [s[|s| - 1]]
    ensures |s| == 0 ==> r == []
  {
    if |s| == 0 then [] else s[..|s| - 1]
  }

  /** Whether s begins with p (s.startswith(p)). */
  predicate StartsWith(s: string, p: string) {
    |p| <= |s| && s[..|p|] == p
  }

  /** The string test `needle in hay`: needle occurs in hay as a substring. */
  predicate Contains(hay: string, needle: string)
    decreases |hay|
  {
    StartsWith(hay, needle) || (|hay| > 0 && Contains(hay[1..], needle))
  }

  /** sep occurs in s at position i. */
  predicate OccursAt(s: string, sep: string, i: nat) {
    i + |sep| <= |s| && s[i..i + |sep|] == sep
  }

  /** s.find(sep) for a non-empty sep, as an Option: the first position where sep occurs. */
  function Find(s: string, sep: string): (r: Option<nat>)
    requires |sep| > 0
    ensures r.Some? ==> OccursAt(s, sep, r.value)
    ensures r.Some? ==> forall i: nat :: i < r.value ==> !OccursAt(s, sep, i)
    ensures r.None? ==> forall i: nat :: !OccursAt(s, sep, i)
    decreases |s|
  {
    if |s| < |sep| then None
    else if s[..|sep|] == sep then Some(0)
    else
      var rest := Find(s[1..], sep);
      ShiftOccurs(s, sep);
      assert !OccursAt(s, sep, 0);
      match rest
      case None =>
        assert forall i: nat :: !OccursAt(s, sep, i) by {
          forall i: nat ensures !OccursAt(s, sep, i) {
            if i > 0 { assert !OccursAt(s[1..], sep, i - 1); }
          }
        }
        None
      case Some(j) =>
        assert forall i: nat :: i < j + 1 ==> !OccursAt(s, sep, i) by {
          forall i: nat | i < j + 1 ensures !OccursAt(s, sep, i) {
            if i > 0 { assert !OccursAt(s[1..], sep, i - 1); }
          }
        }
        Some(j + 1)
  }

  /** An occurrence in s[1..] is an occurrence in s one position further on. */
  lemma ShiftOccurs(s: string, sep: string)
    requires |s| > 0
    ensures forall i: nat :: OccursAt(s[1..], sep, i) <==> OccursAt(s, sep, i + 1)
  {
    forall i: nat
      ensures OccursAt(s[1..], sep, i) <==> OccursAt(s, sep, i + 1)
    {
      if i + |sep| <= |s| - 1 {
        assert s[1..][i..i + |sep|] == s[i + 1..i + 1 + |sep|];
      }
    }
  }

  /** "sep".join(parts) */
  function Join(parts: seq<string>, sep: string): string
    decreases |parts|
  {
    if |parts| == 0 then []
    else if |parts| == 1 then parts[0]
    else parts[0] + sep + Join(parts[1..], sep)
  }

  /** s.split(sep) for a non-empty sep: the pieces between successive
      non-overlapping occurrences of sep, scanning left to right. */
  function Split(s: string, sep: string): (r: seq<string>)
    requires |sep| > 0
    ensures |r| >= 1
    ensures Join(r, sep) == s
    ensures forall k :: 0 <= k < |r| ==> Find(r[k], sep).None?
    decreases |s|
  {
    match Find(s, sep)
    case None => [s]
    case Some(i) =>
      var rest := Split(s[i + |sep|..], sep);
      assert s[..i] + sep + s[i + |sep|..] == s by {
        assert s[i..i + |sep|] == sep;
        assert s == s[..i] + s[i..i + |sep|] + s[i + |sep|..];
      }
      PrefixHasNoOccurrence(s, sep, i);
      [s[..i]] + rest
  }

  /** Before the first occurrence of sep, the prefix holds no occurrence of it. */
  lemma PrefixHasNoOccurrence(s: string, sep: string, i: nat)
    requires |sep| > 0 && i <= |s|
    requires forall j: nat :: j < i ==> !OccursAt(s, sep, j)
    ensures Find(s[..i], sep).None?
  {
    forall j: nat ensures !OccursAt(s[..i], sep, j) {
      if j + |sep| <= i {
        assert s[..i][j..j + |sep|] == s[j..j + |sep|];
        assert !OccursAt(s, sep, j);
      }
    }
  }

  /** Python's list[i] for i in [-|xs|, |xs|): negative indices count from the end. */
  function PyIndex<T>(xs: seq<T>, i: int): (r: T)
    requires -|xs| <= i < |xs|
    ensures i >= 0 ==> r == xs[i]
    ensures i < 0 ==> r == xs[|xs| + i]
  {
    if i >= 0 then xs[i] else xs[|xs| + i]
  }

  /** list.remove(x): drops the first element equal to x (ValueError when
      there is none, which callers check with `x in xs`). */
  function RemoveFirst<T(==)>(xs: seq<T>, x: T): (r: seq<T>)
    requires x in xs
    ensures |r| == |xs| - 1
    ensures multiset(r) == multiset(xs) - multiset{x}
    decreases |xs|
  {
    assert xs == [xs[0]] + xs[1..];
    if xs[0] == x then xs[1..]
    else
      var rest := RemoveFirst(xs[1..], x);
      [xs[0]] + rest
  }

  /** The numbers 0..n-1. */
  function Below(n: nat): (r: set<nat>)
    ensures forall x: nat :: x in r <==> x < n
    ensures |r| == n
  {
    if n == 0 then {} else Below(n - 1) + {n - 1}
  }
}
