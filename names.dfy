/** Sequences of server names: the insertion order of the server dictionary. */
module Names {

  /** No name occurs twice. */
  predicate NoDup(s: seq<string>)
  {
    forall i, j :: 0 <= i < j < |s| ==> s[i] != s[j]
  }

  /** The names of `s` that are in `live`, in the order of `s`. */
  function Keep(s: seq<string>, live: set<string>): (r: seq<string>)
    ensures forall x :: x in r <==> x in s && x in live
    ensures NoDup(s) ==> NoDup(r)
    ensures |r| <= |s|
  {
    if s == [] then []
    else
      var rest := Keep(s[1..], live);
      assert forall x :: x in rest ==> x in s[1..];
      assert NoDup(s) ==> s[0] !in s[1..];
      if s[0] in live then [s[0]] + rest else rest
  }

  /** `s` with every occurrence of `x` removed, the rest in order: what popping
      the key `x` does to the dictionary's key order. */
  function Without(s: seq<string>, x: string): (r: seq<string>)
    ensures forall y :: y in r <==> y in s && y != x
    ensures NoDup(s) ==> NoDup(r)
    ensures x !in s ==> r == s
  {
    if s == [] then []
    else
      var rest := Without(s[1..], x);
      assert forall y :: y in rest ==> y in s[1..];
      assert NoDup(s) ==> s[0] !in s[1..];
      if s[0] == x then rest else [s[0]] + rest
  }

  /** Popping a name listed once at position `k` cuts out that one position
      and leaves the other names in their order. */
  lemma {:induction false} WithoutCuts(s: seq<string>, x: string, k: nat)
    requires NoDup(s) && k < |s| && s[k] == x
    ensures Without(s, x) == s[..k] + s[k + 1..]
  {
    assert s[0] in s;
    if k == 0 {
      assert x !in s[1..];
      assert Without(s, x) == Without(s[1..], x) == s[1..];
    } else {
      WithoutCuts(s[1..], x, k - 1);
      assert s[..k] == [s[0]] + s[1..][..k - 1];
      assert s[k + 1..] == s[1..][k..];
    }
  }

  /** Keeping the live names of a concatenation keeps them part by part: the
      names that stay are in the order they had. */
  lemma {:induction false} KeepAppend(a: seq<string>, b: seq<string>, live: set<string>)
    ensures Keep(a + b, live) == Keep(a, live) + Keep(b, live)
  {
    if a != [] {
      assert (a + b)[1..] == a[1..] + b;
      KeepAppend(a[1..], b, live);
    } else {
      assert a + b == b;
    }
  }

  /** Popping `x` after keeping the live names is keeping the live names other than `x`. */
  lemma {:induction false} WithoutKeep(s: seq<string>, live: set<string>, x: string)
    ensures Without(Keep(s, live), x) == Keep(s, live - {x})
  {
    if s != [] {
      WithoutKeep(s[1..], live, x);
    }
  }

  /** Keeping every name that is live changes nothing. */
  lemma {:induction false} KeepAll(s: seq<string>, live: set<string>)
    requires forall x :: x in s ==> x in live
    ensures Keep(s, live) == s
  {
    if s != [] {
      KeepAll(s[1..], live);
    }
  }
}
