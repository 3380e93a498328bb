/** The list operations the server applies to a party's participants. */
module Lists {

  /** `MutableList.remove(x)`: drops the first occurrence of x, if there is one. */
  function RemoveFirst<T(==)>(s: seq<T>, x: T): (r: seq<T>)
    ensures x !in s ==> r == s
    ensures x in s ==> |r| == |s| - 1
  {
    if s == [] then []
    else if s[0] == x then s[1..]
    else [s[0]] + RemoveFirst(s[1..], x)
  }

  /** The position of the first occurrence of x. */
  function IndexOf<T(==)>(s: seq<T>, x: T): (k: nat)
    requires x in s
    ensures k < |s| && s[k] == x
    ensures forall j :: 0 <= j < k ==> s[j] != x
  {
    if s[0] == x then 0 else 1 + IndexOf(s[1..], x)
  }

  /** RemoveFirst cuts out exactly the first occurrence and keeps the order of the rest. */
  lemma {:induction false} RemoveFirstAt<T>(s: seq<T>, x: T)
    requires x in s
    ensures RemoveFirst(s, x) == s[..IndexOf(s, x)] + s[IndexOf(s, x) + 1..]
  {
    if s[0] != x {
      var t := s[1..];
      assert x in t;
      RemoveFirstAt(t, x);
      var k := IndexOf(t, x);
      assert IndexOf(s, x) == k + 1;
      assert RemoveFirst(s, x) == [s[0]] + (t[..k] + t[k + 1..]);
      assert t[..k] == s[1..k + 1];
      assert t[k + 1..] == s[k + 2..];
      assert [s[0]] + s[1..k + 1] == s[..k + 1];
    }
  }

  /**
   * RemoveFirst takes away one occurrence of x when there is one, and leaves
   * the count of every other element as it was.
   */
  lemma {:induction false} RemoveFirstCounts<T>(s: seq<T>, x: T)
    ensures multiset(RemoveFirst(s, x)) == multiset(s) - multiset{x}
  {
    if s != [] {
      assert s == [s[0]] + s[1..];
      if s[0] != x {
        RemoveFirstCounts(s[1..], x);
      }
    }
  }
}
