/** The in-place sorts of the maintenance paths: one heapsort for any strict total order (used
    for slots by address and for u32 keys), and the adaptive sort of packed keys. */
module Sort {

  ghost predicate StrictTotal(less: (nat, nat) -> bool) {
    && (forall x: nat, y: nat {:trigger less(x, y)} :: less(x, y) ==> !less(y, x) && x != y)
    && (forall x: nat, y: nat {:trigger less(x, y)} :: !less(x, y) && x != y ==> less(y, x))
    && (forall x: nat, y: nat, z: nat {:trigger less(x, y), less(y, z)} :: less(x, y) && less(y, z) ==> less(x, z))
  }

  // x may stand before y.
  ghost predicate Leq(less: (nat, nat) -> bool, x: nat, y: nat) {
    !less(y, x)
  }

  lemma LeqTrans(less: (nat, nat) -> bool, x: nat, y: nat, z: nat)
    requires StrictTotal(less) && Leq(less, x, y) && Leq(less, y, z)
    ensures Leq(less, x, z)
  {
    assert x == y || less(x, y);
    assert y == z || less(y, z);
  }

  ghost predicate SortedBy(less: (nat, nat) -> bool, s: seq<nat>) {
    forall i, j :: 0 <= i < j < |s| ==> Leq(less, s[i], s[j])
  }

  function Swapped(s: seq<nat>, i: nat, j: nat): (r: seq<nat>)
    requires i < |s| && j < |s|
    ensures |r| == |s|
  {
    s[i := s[j]][j := s[i]]
  }

  lemma SwapPermutes(s: seq<nat>, i: nat, j: nat)
    requires i < |s| && j < |s|
    ensures multiset(Swapped(s, i, j)) == multiset(s)
  {
  }

  predicate ChildOf(c: nat, r: nat) {
    c == 2 * r + 1 || c == 2 * r + 2
  }

  // Every node from `from` on dominates its children up to `end` (exclusive), except node x.
  ghost predicate HeapExcept(less: (nat, nat) -> bool, s: seq<nat>, from: nat, end: nat, x: nat) {
    && end <= |s|
    && forall r: nat, c: nat {:trigger ChildOf(c, r)} :: from <= r && r != x && ChildOf(c, r) && c < end ==> Leq(less, s[c], s[r])
  }

  ghost predicate Heap(less: (nat, nat) -> bool, s: seq<nat>, from: nat, end: nat) {
    && end <= |s|
    && forall r: nat, c: nat {:trigger ChildOf(c, r)} :: from <= r && ChildOf(c, r) && c < end ==> Leq(less, s[c], s[r])
  }

  // A grandparent dominates the grandchildren reached through x.
  ghost predicate Bridged(less: (nat, nat) -> bool, s: seq<nat>, from: nat, end: nat, x: nat) {
    && end <= |s|
    && forall p: nat, c: nat {:trigger ChildOf(x, p), ChildOf(c, x)} ::
         from <= p && ChildOf(x, p) && ChildOf(c, x) && c < end ==> Leq(less, s[c], s[p])
  }

  lemma SiftStep(less: (nat, nat) -> bool, s: seq<nat>, from: nat, end: nat, root: nat, child: nat)
    requires StrictTotal(less) && from <= root && ChildOf(child, root) && child < end <= |s|
    requires HeapExcept(less, s, from, end, root) && Bridged(less, s, from, end, root)
    requires forall c: nat :: ChildOf(c, root) && c < end ==> Leq(less, s[c], s[child])
    requires less(s[root], s[child])
    ensures var t := Swapped(s, root, child);
            HeapExcept(less, t, from, end, child) && Bridged(less, t, from, end, child)
  {
    var t := Swapped(s, root, child);
    forall r: nat, c: nat | from <= r && r != child && ChildOf(c, r) && c < end ensures Leq(less, t[c], t[r]) {
      if r == root {
        assert Leq(less, s[c], s[child]);
      } else if c == root {
        assert ChildOf(root, r) && ChildOf(child, root);
      } else {
        assert c != child;
      }
    }
    forall p: nat, c: nat | from <= p && ChildOf(child, p) && ChildOf(c, child) && c < end ensures Leq(less, t[c], t[p]) {
      assert p == root;
      assert Leq(less, s[c], s[child]);
    }
  }

  lemma SiftStop(less: (nat, nat) -> bool, s: seq<nat>, from: nat, end: nat, root: nat, child: nat)
    requires StrictTotal(less) && from <= root && ChildOf(child, root) && child < end <= |s|
    requires HeapExcept(less, s, from, end, root)
    requires forall c: nat :: ChildOf(c, root) && c < end ==> Leq(less, s[c], s[child])
    requires !less(s[root], s[child])
    ensures Heap(less, s, from, end)
  {
    forall c: nat | ChildOf(c, root) && c < end ensures Leq(less, s[c], s[root]) {
      LeqTrans(less, s[c], s[child], s[root]);
    }
  }

  // sift(root, end - 1)
  method Sift(a: array<nat>, first: nat, end: nat, less: (nat, nat) -> bool)
    requires StrictTotal(less) && first <= end <= a.Length
    requires HeapExcept(less, a[..], first, end, first)
    modifies a
    ensures Heap(less, a[..], first, end)
    ensures multiset(a[..end]) == multiset(old(a[..end])) && a[end..] == old(a[end..])
    ensures multiset(a[..]) == multiset(old(a[..]))
  {
    hide HeapExcept, Bridged, Heap, StrictTotal, Swapped, Leq;
    var root := first;
    SiftReady(less, a[..], first, end);
    while true
      invariant first <= root
      invariant HeapExcept(less, a[..], first, end, root) && Bridged(less, a[..], first, end, root)
      invariant multiset(a[..end]) == multiset(old(a[..end])) && a[end..] == old(a[end..])
      invariant multiset(a[..]) == multiset(old(a[..]))
      decreases a.Length - root
    {
      ghost var s := a[..];
      var child := 2 * root + 1;
      if child >= end {
        LeafHeap(less, s, first, end, root);
        return;
      }
      if child + 1 < end && less(a[child], a[child + 1]) {
        child := child + 1;
      }
      LargerChild(less, s, root, child, end);
      if !less(a[root], a[child]) {
        SiftStop(less, s, first, end, root, child);
        return;
      }
      SiftStep(less, s, first, end, root, child);
      a[root], a[child] := a[child], a[root];
      SwapSlices(s, a[..], root, child, end);
      root := child;
    }
  }

  lemma SiftReady(less: (nat, nat) -> bool, s: seq<nat>, first: nat, end: nat)
    requires end <= |s|
    ensures Bridged(less, s, first, end, first)
  {
  }

  lemma SwapSlices(s: seq<nat>, t: seq<nat>, root: nat, child: nat, end: nat)
    requires root < end <= |s| && child < end && t == s[root := s[child]][child := s[root]]
    ensures t == Swapped(s, root, child)
    ensures multiset(t[..end]) == multiset(s[..end]) && t[end..] == s[end..] && multiset(t) == multiset(s)
  {
    SwapPermutes(s, root, child);
    SwapPermutes(s[..end], root, child);
    assert t[..end] == Swapped(s[..end], root, child);
  }

  lemma LeafHeap(less: (nat, nat) -> bool, s: seq<nat>, from: nat, end: nat, root: nat)
    requires HeapExcept(less, s, from, end, root) && 2 * root + 1 >= end
    ensures Heap(less, s, from, end)
  {
  }

  lemma LargerChild(less: (nat, nat) -> bool, s: seq<nat>, root: nat, child: nat, end: nat)
    requires StrictTotal(less) && ChildOf(child, root) && child < end <= |s|
    requires child == 2 * root + 1 ==> child + 1 >= end || !less(s[child], s[child + 1])
    requires child == 2 * root + 2 ==> less(s[child - 1], s[child])
    ensures forall c: nat :: ChildOf(c, root) && c < end ==> Leq(less, s[c], s[child])
  {
  }

  lemma {:induction false} HeapTop(less: (nat, nat) -> bool, s: seq<nat>, end: nat, k: nat)
    requires StrictTotal(less) && Heap(less, s, 0, end) && k < end
    ensures Leq(less, s[k], s[0])
  {
    if k > 0 {
      var p := (k - 1) / 2;
      assert ChildOf(k, p);
      HeapTop(less, s, end, p);
      LeqTrans(less, s[k], s[p], s[0]);
    }
  }

  // The part from m on is sorted and dominates everything before it.
  ghost predicate Tail(less: (nat, nat) -> bool, s: seq<nat>, m: nat, n: nat) {
    && m <= n <= |s|
    && forall i, j :: 0 <= i < j < n && m <= j ==> Leq(less, s[i], s[j])
  }

  lemma TailStep(less: (nat, nat) -> bool, s: seq<nat>, t: seq<nat>, m: nat, n: nat)
    requires StrictTotal(less) && 0 < m < n <= |s| && Heap(less, s, 0, m + 1) && Tail(less, s, m + 1, n)
    requires t == Swapped(s, 0, m)
    ensures HeapExcept(less, t, 0, m, 0) && Tail(less, t, m, n)
  {
    forall i, j | 0 <= i < j < n && m <= j ensures Leq(less, t[i], t[j]) {
      if j == m {
        HeapTop(less, s, m + 1, i);
        HeapTop(less, s, m + 1, m);
      } else {
        assert Leq(less, s[0], s[j]) && Leq(less, s[m], s[j]) && (i < m + 1 || Leq(less, s[i], s[j]));
      }
    }
  }

  lemma TailPermuted(less: (nat, nat) -> bool, s: seq<nat>, t: seq<nat>, m: nat, n: nat)
    requires Tail(less, s, m, n) && |t| == |s| && multiset(t[..m]) == multiset(s[..m]) && t[m..] == s[m..]
    ensures Tail(less, t, m, n)
  {
    forall i, j | 0 <= i < j < n && m <= j ensures Leq(less, t[i], t[j]) {
      assert t[j] == t[m..][j - m] == s[j];
      if i < m {
        assert t[i] in multiset(t[..m]) by { assert t[..m][i] == t[i]; }
        assert t[i] in s[..m];
        var k :| 0 <= k < m && s[k] == t[i];
      } else {
        assert t[i] == t[m..][i - m] == s[i];
      }
    }
  }

  // sort_slots_by_address and sort_u32_asc: heapsort of a[0..n).
  method HeapSort(a: array<nat>, n: nat, less: (nat, nat) -> bool)
    requires StrictTotal(less) && n <= a.Length
    modifies a
    ensures SortedBy(less, a[..n])
    ensures multiset(a[..n]) == multiset(old(a[..n])) && a[n..] == old(a[n..])
  {
    if n < 2 {
      return;
    }
    var i := n / 2;
    while i > 0
      invariant 0 <= i <= n / 2
      invariant Heap(less, a[..], i, n)
      invariant multiset(a[..n]) == multiset(old(a[..n])) && a[n..] == old(a[n..])
    {
      i := i - 1;
      Sift(a, i, n, less);
    }
    var m := n - 1;
    ghost var was := a[..];
    WholeTail(less, a[..], n);
    while m > 0
      invariant 0 <= m < n
      invariant Heap(less, a[..], 0, m + 1) && Tail(less, a[..], m + 1, n)
      invariant multiset(a[..n]) == multiset(old(a[..n])) && a[n..] == old(a[n..])
    {
      ghost var s := a[..];
      a[0], a[m] := a[m], a[0];
      ghost var t := a[..];
      assert t == Swapped(s, 0, m);
      SwapPermutes(s[..n], 0, m);
      assert t[..n] == Swapped(s[..n], 0, m) && t[n..] == s[n..];
      TailStep(less, s, t, m, n);
      Sift(a, 0, m, less);
      SiftedPrefix(t, a[..], m, n);
      TailPermuted(less, t, a[..], m, n);
      m := m - 1;
    }
    TailSorted(less, a[..], n);
  }

  lemma WholeTail(less: (nat, nat) -> bool, s: seq<nat>, n: nat)
    requires n <= |s|
    ensures Tail(less, s, n, n)
  {
  }

  lemma TailSorted(less: (nat, nat) -> bool, s: seq<nat>, n: nat)
    requires StrictTotal(less) && Tail(less, s, 1, n)
    ensures SortedBy(less, s[..n])
  {
  }

  lemma SiftedPrefix(t: seq<nat>, u: seq<nat>, m: nat, n: nat)
    requires m <= n <= |t| == |u| && multiset(u[..m]) == multiset(t[..m]) && u[m..] == t[m..]
    ensures multiset(u[..n]) == multiset(t[..n]) && u[n..] == t[n..]
  {
    assert u[..n] == u[..m] + u[m..][..n - m];
    assert t[..n] == t[..m] + t[m..][..n - m];
    assert u[n..] == u[m..][n - m..];
    assert t[n..] == t[m..][n - m..];
  }

  // ---- packed keys ---------------------------------------------------------------------

  ghost predicate Ascending(s: seq<nat>) {
    forall i, j :: 0 <= i < j < |s| ==> s[i] <= s[j]
  }

  function Less(x: nat, y: nat): bool {
    x < y
  }

  function Reverse(s: seq<nat>): (r: seq<nat>)
    ensures |r| == |s| && forall i :: 0 <= i < |s| ==> r[i] == s[|s| - 1 - i]
  {
    seq(|s|, i requires 0 <= i < |s| => s[|s| - 1 - i])
  }

  lemma {:induction false} ReversePermutes(s: seq<nat>)
    ensures multiset(Reverse(s)) == multiset(s)
  {
    if s != [] {
      var r := Reverse(s);
      ReversePermutes(s[1..]);
      assert r == Reverse(s[1..]) + [s[0]];
      assert s == [s[0]] + s[1..];
    }
  }

  method SortU32Asc(a: array<nat>, n: nat)
    requires n <= a.Length
    modifies a
    ensures Ascending(a[..n])
    ensures multiset(a[..n]) == multiset(old(a[..n])) && a[n..] == old(a[n..])
  {
    HeapSort(a, n, Less);
    assert forall i, j :: 0 <= i < j < n ==> Leq(Less, a[..n][i], a[..n][j]);
  }

  // sort_packed_keys: ascending input is left alone, descending input is reversed, anything
  // else is heapsorted.
  method SortPackedKeys(a: array<nat>, n: nat)
    requires n <= a.Length
    modifies a
    ensures Ascending(a[..n])
    ensures multiset(a[..n]) == multiset(old(a[..n])) && a[n..] == old(a[n..])
  {
    if n < 2 {
      return;
    }
    var ascending, descending := true, true;
    var k := 1;
    while k < n && (ascending || descending)
      invariant 1 <= k <= n
      invariant ascending ==> forall i :: 1 <= i < k ==> a[i - 1] <= a[i]
      invariant descending ==> forall i :: 1 <= i < k ==> a[i - 1] >= a[i]
    {
      if a[k - 1] > a[k] { ascending := false; }
      if a[k - 1] < a[k] { descending := false; }
      k := k + 1;
    }
    if ascending {
      StepsAscend(a[..n]);
      return;
    }
    if descending {
      ReverseInPlace(a, n);
      ghost var s := old(a[..n]);
      StepsDescend(s);
      ReversePermutes(s);
      return;
    }
    SortU32Asc(a, n);
  }

  lemma {:induction false} StepsAscend(s: seq<nat>)
    requires forall i :: 1 <= i < |s| ==> s[i - 1] <= s[i]
    ensures Ascending(s)
  {
    if s != [] {
      var t := s[..|s| - 1];
      StepsAscend(t);
      forall i, j | 0 <= i < j < |s| ensures s[i] <= s[j] {
        if j == |s| - 1 {
          assert s[j - 1] <= s[j];
          assert i < j - 1 ==> t[i] <= t[j - 1];
        } else {
          assert t[i] <= t[j];
        }
      }
    }
  }

  lemma {:induction false} StepsDescend(s: seq<nat>)
    requires forall i :: 1 <= i < |s| ==> s[i - 1] >= s[i]
    ensures Ascending(Reverse(s))
  {
    var r := Reverse(s);
    forall i | 1 <= i < |r| ensures r[i - 1] <= r[i] {
      assert s[|s| - 1 - i] >= s[|s| - i];
    }
    StepsAscend(r);
  }

  method ReverseInPlace(a: array<nat>, n: nat)
    requires n <= a.Length
    modifies a
    ensures a[..n] == Reverse(old(a[..n])) && a[n..] == old(a[n..])
  {
    var i := 0;
    while i < n / 2
      invariant 0 <= i <= n / 2
      invariant forall k :: 0 <= k < i ==> a[k] == old(a[n - 1 - k]) && a[n - 1 - k] == old(a[k])
      invariant forall k :: i <= k < n - i ==> a[k] == old(a[k])
      invariant forall k :: n <= k < a.Length ==> a[k] == old(a[k])
    {
      a[i], a[n - 1 - i] := a[n - 1 - i], a[i];
      i := i + 1;
    }
    forall k | 0 <= k < n ensures a[k] == old(a[n - 1 - k]) {
      if k >= n - i { assert a[n - 1 - (n - 1 - k)] == old(a[n - 1 - k]); }
    }
  }
}
