/** Ordered name lists (dataset names of a repository, version names of a
    dataset): linear search, append and first-occurrence removal. */
module NameLists {

  /** Index of the first element equal to `x`, or -1 when there is none. */
  function FindIndex<T(==)>(s: seq<T>, x: T): (r: int)
    ensures -1 <= r < |s|
    ensures r == -1 <==> x !in s
    ensures r >= 0 ==> s[r] == x && forall k :: 0 <= k < r ==> s[k] != x
    decreases |s|
  {
    if s == [] then -1
    else if s[0] == x then 0
    else
      var k := FindIndex(s[1..], x);
      if k == -1 then -1 else k + 1
  }

  /** The list with its first occurrence of `x` deleted; unchanged when absent. */
  function RemoveFirst<T(==)>(s: seq<T>, x: T): (r: seq<T>)
    ensures |r| == if x in s then |s| - 1 else |s|
    ensures x !in s ==> r == s
    decreases |s|
  {
    if s == [] then []
    else if s[0] == x then s[1..]
    else [s[0]] + RemoveFirst(s[1..], x)
  }

  /** Removal deletes exactly the element at the first matching index and keeps
      the order of the rest; it is a no-op when the name is absent. */
  lemma RemoveFirstSpec<T>(s: seq<T>, x: T)
    ensures x !in s ==> RemoveFirst(s, x) == s
    ensures x in s ==> RemoveFirst(s, x) == s[..FindIndex(s, x)] + s[FindIndex(s, x) + 1..]
    ensures |RemoveFirst(s, x)| == if x in s then |s| - 1 else |s|
  {
    if x in s {
      RemoveFirstAt(s, x);
    }
  }

  lemma RemoveFirstAt<T>(s: seq<T>, x: T)
    requires x in s
    ensures RemoveFirst(s, x) == s[..FindIndex(s, x)] + s[FindIndex(s, x) + 1..]
  {
    RemoveFirstAtIndex(s, x, FindIndex(s, x));
  }

  /** The induction behind `RemoveFirstAt`, on the position of the first
      occurrence. */
  lemma {:induction false} RemoveFirstAtIndex<T>(s: seq<T>, x: T, i: int)
    requires 0 <= i < |s| && s[i] == x
    requires forall k :: 0 <= k < i ==> s[k] != x
    ensures RemoveFirst(s, x) == s[..i] + s[i + 1..]
    decreases i
  {
    if i == 0 {
      assert s[..0] + s[1..] == s[1..];
    } else {
      var t := s[1..];
      assert forall k :: 0 <= k < i - 1 ==> t[k] == s[k + 1];
      RemoveFirstAtIndex(t, x, i - 1);
      assert RemoveFirst(s, x) == [s[0]] + (t[..i - 1] + t[i..]);
      assert s[..i] == [s[0]] + t[..i - 1];
      assert s[i + 1..] == t[i..];
    }
  }

  /** Any occurrence bounds the first one from above. */
  lemma {:induction false} FindIndexBefore<T>(s: seq<T>, x: T, i: int)
    requires 0 <= i < |s| && s[i] == x
    ensures 0 <= FindIndex(s, x) <= i
    decreases |s|
  {
    if s[0] != x {
      FindIndexBefore(s[1..], x, i - 1);
    }
  }

  /** Searching a concatenation whose first part holds the name searches the
      first part only. */
  lemma {:induction false} FindIndexPrefix<T>(a: seq<T>, b: seq<T>, x: T)
    requires x in a
    ensures FindIndex(a + b, x) == FindIndex(a, x)
    decreases |a|
  {
    if a[0] != x {
      assert (a + b)[1..] == a[1..] + b;
      FindIndexPrefix(a[1..], b, x);
    }
  }

  /** Searching a concatenation whose first part lacks the name searches the
      second part, offset by the first part's length. */
  lemma {:induction false} FindIndexAppend<T>(a: seq<T>, b: seq<T>, x: T)
    requires x !in a
    ensures FindIndex(a + b, x) == if x in b then |a| + FindIndex(b, x) else -1
    decreases |a|
  {
    if a == [] {
      assert a + b == b;
    } else {
      assert (a + b)[1..] == a[1..] + b;
      FindIndexAppend(a[1..], b, x);
    }
  }

  /** A name appended to a list that lacks it is found at the end. */
  lemma AppendThenFind<T>(s: seq<T>, x: T)
    requires x !in s
    ensures FindIndex(s + [x], x) == |s|
  {
    FindIndexAppend(s, [x], x);
  }
}
