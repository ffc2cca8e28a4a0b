/** Counting a character and finding a string inside another. */
module Text {

  /** The number of occurrences of c in s. */
  function Count(s: string, c: char): nat
  {
    if s == [] then 0 else Count(s[..|s| - 1], c) + (if s[|s| - 1] == c then 1 else 0)
  }

  lemma {:induction false} CountConcat(a: string, b: string, c: char)
    ensures Count(a + b, c) == Count(a, c) + Count(b, c)
    decreases |b|
  {
    if b != [] {
      assert (a + b)[..|a + b| - 1] == a + b[..|b| - 1];
      CountConcat(a, b[..|b| - 1], c);
    } else {
      assert a + b == a;
    }
  }

  lemma {:induction false} CountAbsent(s: string, c: char)
    requires forall i :: 0 <= i < |s| ==> s[i] != c
    ensures Count(s, c) == 0
    decreases |s|
  {
    if s != [] {
      CountAbsent(s[..|s| - 1], c);
    }
  }

  /** s ends with t. */
  predicate EndsWith(s: string, t: string)
  {
    |t| <= |s| && s[|s| - |t|..] == t
  }

  lemma EndsWithAppend(s: string, t: string)
    ensures EndsWith(s + t, t)
  {
    assert (s + t)[|s|..] == t;
  }

  /** s begins with t. */
  predicate StartsWith(s: string, t: string)
  {
    |t| <= |s| && s[..|t|] == t
  }

  /** t occurs in s as a contiguous piece. */
  predicate Contains(s: string, t: string)
  {
    exists i, j | 0 <= i <= j <= |s| :: s[i..j] == t
  }

  /** A piece of s never holds more occurrences of c than s does. */
  lemma CountOfPiece(s: string, t: string, c: char)
    requires Contains(s, t)
    ensures Count(t, c) <= Count(s, c)
  {
    var i, j :| 0 <= i <= j <= |s| && s[i..j] == t;
    assert s == s[..i] + t + s[j..];
    CountConcat(s[..i], t, c);
    CountConcat(s[..i] + t, s[j..], c);
  }

  lemma StartsWithAppend(a: string, b: string, p: string)
    requires StartsWith(a, p)
    ensures StartsWith(a + b, p)
  {
    assert (a + b)[..|p|] == a[..|p|];
  }

  /** A string that opens s and ends in t puts t inside s. */
  lemma ContainsViaPrefix(s: string, q: string, t: string)
    requires StartsWith(s, q) && EndsWith(q, t)
    ensures Contains(s, t)
  {
    assert s[|q| - |t|..|q|] == q[|q| - |t|..];
  }

  lemma PrefixTrans(s: string, q: string, p: string)
    requires StartsWith(s, q) && StartsWith(q, p)
    ensures StartsWith(s, p)
  {
    assert s[..|p|] == q[..|p|];
  }
}
