/** Sequences of list nodes, as threaded by prev/next links that use 0xFFFFFFFF for "none". */
module Lists {
  import opened Base

  // The i-th node of a list, or NULL_OFF outside it.
  function At(s: seq<nat>, i: int): nat {
    if 0 <= i < |s| then s[i] else NULL_OFF
  }

  ghost predicate NoDup(s: seq<nat>) {
    forall i, j :: 0 <= i < j < |s| ==> s[i] != s[j]
  }

  ghost function IndexOf(s: seq<nat>, x: nat): (i: nat)
    requires x in s
    ensures i < |s| && s[i] == x
  {
    if s[0] == x then 0 else 1 + IndexOf(s[1..], x)
  }

  ghost function Without(s: seq<nat>, i: nat): (r: seq<nat>)
    requires i < |s|
    ensures |r| == |s| - 1
    ensures forall j :: 0 <= j < |r| ==> r[j] == if j < i then s[j] else s[j + 1]
  {
    s[..i] + s[i + 1..]
  }

  lemma WithoutMembers(s: seq<nat>, i: nat)
    requires i < |s| && NoDup(s)
    ensures NoDup(Without(s, i))
    ensures forall o :: o in Without(s, i) <==> o in s && o != s[i]
  {
    var r := Without(s, i);
    forall o | o in s && o != s[i] ensures o in r {
      var j :| 0 <= j < |s| && s[j] == o;
      if j < i { assert r[j] == o; } else { assert r[j - 1] == o; }
    }
  }

  lemma IndexUnique(s: seq<nat>, i: nat)
    requires NoDup(s) && i < |s|
    ensures s[i] in s && IndexOf(s, s[i]) == i
  {
  }

  lemma {:induction false} DistinctBelow(t: seq<nat>, n: nat)
    requires NoDup(t) && forall i :: 0 <= i < |t| ==> t[i] < n
    ensures |t| <= n
  {
    assert t != [] ==> t[0] < n;
    if n == 0 {
    } else if exists i :: 0 <= i < |t| && t[i] == n - 1 {
      var i :| 0 <= i < |t| && t[i] == n - 1;
      WithoutMembers(t, i);
      DistinctBelow(Without(t, i), n - 1);
    } else {
      DistinctBelow(t, n - 1);
    }
  }

  lemma PermutedMember(s: seq<nat>, t: seq<nat>, i: nat)
    requires multiset(s) == multiset(t) && i < |s|
    ensures s[i] in t
  {
    assert s[i] in multiset(s);
  }

  lemma TwiceCounted(s: seq<nat>, i: nat, j: nat)
    requires i < j < |s| && s[i] == s[j]
    ensures multiset(s)[s[i]] >= 2
  {
    assert s == s[..i] + [s[i]] + s[i + 1..j] + [s[j]] + s[j + 1..];
  }

  lemma {:induction false} NoDupCount(t: seq<nat>)
    requires NoDup(t)
    ensures forall x :: multiset(t)[x] <= 1
  {
    if t != [] {
      NoDupCount(t[1..]);
      assert t == [t[0]] + t[1..];
      assert t[0] !in t[1..];
    }
  }

  lemma PermutedNoDup(s: seq<nat>, t: seq<nat>)
    requires multiset(s) == multiset(t) && NoDup(t)
    ensures NoDup(s)
  {
    NoDupCount(t);
    forall i, j | 0 <= i < j < |s| ensures s[i] != s[j] {
      if s[i] == s[j] {
        TwiceCounted(s, i, j);
      }
    }
  }
}
