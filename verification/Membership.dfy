/** Cluster membership: the sorted server list, round-robin leaders and majorities. */
module Membership {

  /** The addresses of a cluster; never empty, since a server lists itself. */
  type Members = s: seq<string> | |s| > 0 witness [""]

  predicate NoDuplicates(xs: seq<string>) {
    forall i, j :: 0 <= i < j < |xs| ==> xs[i] != xs[j]
  }

  function AsSet(xs: seq<string>): set<string> {
    set x | x in xs
  }

  /** Character-wise lexicographic order, the order of sort.Strings. */
  predicate LexLe(a: string, b: string) {
    if a == "" then true
    else if b == "" then false
    else if a[0] != b[0] then a[0] < b[0]
    else LexLe(a[1..], b[1..])
  }

  predicate Sorted(xs: seq<string>) {
    forall i, j :: 0 <= i < j < |xs| ==> LexLe(xs[i], xs[j])
  }

  function Insert(x: string, xs: seq<string>): seq<string> {
    if xs == [] then [x]
    else if LexLe(x, xs[0]) then [x] + xs
    else [xs[0]] + Insert(x, xs[1..])
  }

  function SortStrings(xs: seq<string>): seq<string> {
    if xs == [] then [] else Insert(xs[0], SortStrings(xs[1..]))
  }

  /** The list every server builds from its own address and its peers, repeated addresses included. */
  function ServerList(self: string, peers: seq<string>): (all: Members)
    ensures Sorted(all) && multiset(all) == multiset([self] + peers)
  {
    SortIsSortedPermutation([self] + peers);
    SortStrings([self] + peers)
  }

  function LeaderOf(all: Members, view: nat): string {
    all[view % |all|]
  }

  function Majority(n: nat): nat {
    n / 2 + 1
  }

  lemma {:induction false} LexLeTotal(a: string, b: string)
    ensures LexLe(a, b) || LexLe(b, a)
    ensures LexLe(a, b) && LexLe(b, a) ==> a == b
  {
    if a != "" && b != "" && a[0] == b[0] {
      LexLeTotal(a[1..], b[1..]);
      assert a == [a[0]] + a[1..];
      assert b == [b[0]] + b[1..];
    }
  }

  /** LexLe is the order of the first character in which two strings differ, a prefix coming first. */
  lemma {:induction false} LexLeIsLexicographic(a: string, b: string)
    ensures LexLe(a, b) <==> a <= b || exists i :: 0 <= i < |a| && i < |b| && a[..i] == b[..i] && a[i] < b[i]
  {
    if a != "" && b != "" {
      if a[0] != b[0] {
        if a[0] < b[0] {
          assert a[..0] == b[..0];
        }
        assert forall i :: 0 < i <= |a| && i <= |b| ==> a[..i][0] == a[0] && b[..i][0] == b[0];
      } else {
        LexLeIsLexicographic(a[1..], b[1..]);
        DropEqualHeads(a, b);
      }
    }
  }

  lemma DropEqualHeads(a: string, b: string)
    requires a != "" && b != "" && a[0] == b[0]
    ensures a <= b <==> a[1..] <= b[1..]
    ensures (exists i :: 0 <= i < |a| && i < |b| && a[..i] == b[..i] && a[i] < b[i]) <==>
            (exists i :: 0 <= i < |a[1..]| && i < |b[1..]| && a[1..][..i] == b[1..][..i] && a[1..][i] < b[1..][i])
  {
    assert a == [a[0]] + a[1..] && b == [b[0]] + b[1..];
    forall i | 0 < i < |a| && i < |b| ensures a[..i] == b[..i] <==> a[1..][..i - 1] == b[1..][..i - 1] {
      assert a[..i] == [a[0]] + a[1..][..i - 1] && b[..i] == [b[0]] + b[1..][..i - 1];
    }
    if i :| 0 <= i < |a[1..]| && i < |b[1..]| && a[1..][..i] == b[1..][..i] && a[1..][i] < b[1..][i] {
      assert a[..i + 1] == b[..i + 1] && a[i + 1] < b[i + 1];
    }
    if i :| 0 <= i < |a| && i < |b| && a[..i] == b[..i] && a[i] < b[i] {
      assert a[1..][..i - 1] == b[1..][..i - 1] && a[1..][i - 1] < b[1..][i - 1];
    }
  }

  lemma {:induction false} LexLeTransitive(a: string, b: string, c: string)
    requires LexLe(a, b) && LexLe(b, c)
    ensures LexLe(a, c)
  {
    if a != "" && a[0] == b[0] == c[0] {
      LexLeTransitive(a[1..], b[1..], c[1..]);
    }
  }

  lemma LeastInFront(x: string, xs: seq<string>)
    requires Sorted(xs) && forall j :: 0 <= j < |xs| ==> LexLe(x, xs[j])
    ensures Sorted([x] + xs)
  {
  }

  lemma {:induction false} InsertKeepsSorted(x: string, xs: seq<string>)
    requires Sorted(xs)
    ensures multiset(Insert(x, xs)) == multiset(xs) + multiset{x}
    ensures Sorted(Insert(x, xs))
  {
    if xs == [] {
    } else if LexLe(x, xs[0]) {
      forall j | 0 <= j < |xs| ensures LexLe(x, xs[j]) {
        if j > 0 { LexLeTransitive(x, xs[0], xs[j]); }
      }
      LeastInFront(x, xs);
    } else {
      var rest := Insert(x, xs[1..]);
      InsertKeepsSorted(x, xs[1..]);
      assert xs == [xs[0]] + xs[1..];
      LexLeTotal(x, xs[0]);
      forall j | 0 <= j < |rest| ensures LexLe(xs[0], rest[j]) {
        assert rest[j] in multiset(rest);
        assert rest[j] == x || rest[j] in xs[1..];
      }
      LeastInFront(xs[0], rest);
    }
  }

  lemma {:induction false} SortIsSortedPermutation(xs: seq<string>)
    ensures Sorted(SortStrings(xs))
    ensures multiset(SortStrings(xs)) == multiset(xs)
    ensures |SortStrings(xs)| == |xs|
  {
    if xs != [] {
      SortIsSortedPermutation(xs[1..]);
      InsertKeepsSorted(xs[0], SortStrings(xs[1..]));
      HeadAndTail(xs);
    }
    SameMultisetSameSize(SortStrings(xs), xs);
  }

  lemma HeadAndTail(xs: seq<string>)
    requires xs != []
    ensures multiset(xs) == multiset(xs[1..]) + multiset{xs[0]}
  {
    assert xs == [xs[0]] + xs[1..];
  }

  lemma SameMultisetSameSize(a: seq<string>, b: seq<string>)
    requires multiset(a) == multiset(b)
    ensures |a| == |b|
  {
    assert |multiset(a)| == |a| && |multiset(b)| == |b|;
  }

  /** The head of a sorted list is below every member. */
  lemma HeadIsLeast(xs: seq<string>, x: string)
    requires Sorted(xs) && x in xs
    ensures LexLe(xs[0], x)
  {
    LexLeTotal(x, x);
  }

  lemma HeadsAgree(a: seq<string>, b: seq<string>)
    requires Sorted(a) && Sorted(b) && multiset(a) == multiset(b) && a != [] && b != []
    ensures a[0] == b[0] && multiset(a[1..]) == multiset(b[1..])
  {
    assert a[0] in multiset(b) && b[0] in multiset(a);
    HeadIsLeast(a, b[0]);
    HeadIsLeast(b, a[0]);
    LexLeTotal(a[0], b[0]);
    HeadAndTail(a);
    HeadAndTail(b);
    assert multiset(a[1..]) == multiset(a) - multiset{a[0]};
    assert multiset(b[1..]) == multiset(b) - multiset{b[0]};
  }

  lemma {:induction false} SortedIsUnique(a: seq<string>, b: seq<string>)
    requires Sorted(a) && Sorted(b) && multiset(a) == multiset(b)
    ensures a == b
  {
    SameMultisetSameSize(a, b);
    if a != [] {
      HeadsAgree(a, b);
      SortedIsUnique(a[1..], b[1..]);
      assert a == [a[0]] + a[1..] && b == [b[0]] + b[1..];
    }
  }

  lemma {:induction false} DistinctCounts(xs: seq<string>, x: string)
    requires NoDuplicates(xs)
    ensures multiset(xs)[x] == if x in xs then 1 else 0
  {
    if xs != [] {
      var n := |xs| - 1;
      DistinctCounts(xs[..n], x);
      assert xs == xs[..n] + [xs[n]];
    }
  }

  lemma {:induction false} DistinctSize(xs: seq<string>)
    requires NoDuplicates(xs)
    ensures |AsSet(xs)| == |xs|
  {
    if xs != [] {
      var n := |xs| - 1;
      DistinctSize(xs[..n]);
      assert xs == xs[..n] + [xs[n]];
      assert AsSet(xs) == AsSet(xs[..n]) + {xs[n]};
    }
  }

  /** Servers configured with the same distinct addresses agree on the list, whichever of them
      is "self" and in whatever order the peers are given; the list is sorted and lists each once. */
  lemma SameMembersSameList(self1: string, peers1: seq<string>, self2: string, peers2: seq<string>)
    requires NoDuplicates([self1] + peers1) && NoDuplicates([self2] + peers2)
    requires AsSet([self1] + peers1) == AsSet([self2] + peers2)
    ensures ServerList(self1, peers1) == ServerList(self2, peers2)
    ensures Sorted(ServerList(self1, peers1)) && NoDuplicates(ServerList(self1, peers1))
    ensures AsSet(ServerList(self1, peers1)) == AsSet([self1] + peers1)
  {
    var xs, ys := [self1] + peers1, [self2] + peers2;
    SortIsSortedPermutation(xs);
    SortIsSortedPermutation(ys);
    forall x ensures multiset(xs)[x] == multiset(ys)[x] {
      DistinctCounts(xs, x);
      DistinctCounts(ys, x);
      assert x in AsSet(xs) <==> x in xs;
      assert x in AsSet(ys) <==> x in ys;
    }
    assert multiset(xs) == multiset(ys);
    SortedIsUnique(SortStrings(xs), SortStrings(ys));
    PermutationKeepsMembers(xs, SortStrings(xs));
  }

  /** The first leader is the least address of the cluster: of any other, it is a prefix, or it has the
      smaller character at the first difference. */
  lemma FirstLeaderIsLeast(self: string, peers: seq<string>, x: string)
    requires x in [self] + peers
    ensures var first := ServerList(self, peers)[0];
            && first in [self] + peers
            && (first <= x || exists i :: 0 <= i < |first| && i < |x| && first[..i] == x[..i] && first[i] < x[i])
  {
    var all := ServerList(self, peers);
    assert x in multiset(all) && all[0] in multiset([self] + peers);
    HeadIsLeast(all, x);
    LexLeIsLexicographic(all[0], x);
  }

  // ---- rotation of leaders ----------------------------------------------------------------

  lemma MultipleSteps(n: nat, d: int)
    requires n > 0
    ensures d >= 1 ==> n * d >= n
    ensures d <= -1 ==> n * d <= 0 - n
  {
  }

  lemma RemainderIs(x: nat, n: nat, q: nat, r: nat)
    requires r < n && x == n * q + r
    ensures x % n == r
  {
    var d := x / n - q;
    assert n * d == r - x % n;
    MultipleSteps(n, d);
  }

  /** The first views follow the list, and the order repeats. */
  lemma LeadersTakeTurns(all: Members, view: nat)
    ensures view < |all| ==> LeaderOf(all, view) == all[view]
    ensures LeaderOf(all, view + |all|) == LeaderOf(all, view)
  {
    var n := |all|;
    if view < n {
      RemainderIs(view, n, 0, view);
    }
    assert view + n == n * (view / n + 1) + view % n;
    RemainderIs(view + n, n, view / n + 1, view % n);
  }

  lemma EarlyLeader(all: Members, view: nat)
    requires view < 2 * |all|
    ensures LeaderOf(all, view) == all[if view < |all| then view else view - |all|]
  {
    LeadersTakeTurns(all, if view < |all| then view else view - |all|);
  }

  /** Among any |all| consecutive views, every server leads exactly one. */
  lemma {:induction false} EachLeadsOnce(all: Members, start: nat, s: string) returns (w: nat)
    requires NoDuplicates(all) && s in all
    ensures start <= w < start + |all| && LeaderOf(all, w) == s
    ensures forall u :: start <= u < start + |all| && LeaderOf(all, u) == s ==> u == w
    decreases start
  {
    var n := |all|;
    if start < n {
      var i :| 0 <= i < n && all[i] == s;
      w := if i >= start then i else i + n;
      EarlyLeader(all, w);
      forall u | start <= u < start + n && LeaderOf(all, u) == s ensures u == w {
        EarlyLeader(all, u);
      }
    } else {
      var v := EachLeadsOnce(all, start - n, s);
      LeadersTakeTurns(all, v);
      w := v + n;
      forall u | start <= u < start + n && LeaderOf(all, u) == s ensures u == w {
        LeadersTakeTurns(all, u - n);
      }
    }
  }

  lemma RepeatCounts(ys: seq<string>, i: nat, j: nat)
    requires i < j < |ys| && ys[i] == ys[j]
    ensures multiset(ys)[ys[i]] >= 2
  {
    assert ys == ys[..j] + [ys[j]] + ys[j + 1..];
    assert ys[i] == ys[..j][i];
  }

  lemma PermutationKeepsMembers(xs: seq<string>, ys: seq<string>)
    requires NoDuplicates(xs) && multiset(xs) == multiset(ys)
    ensures NoDuplicates(ys) && AsSet(ys) == AsSet(xs)
  {
    forall x ensures x in ys <==> x in xs {
      assert x in multiset(ys) <==> x in multiset(xs);
    }
    forall i, j | 0 <= i < j < |ys| ensures ys[i] != ys[j] {
      if ys[i] == ys[j] {
        RepeatCounts(ys, i, j);
        DistinctCounts(xs, ys[i]);
      }
    }
  }

  lemma SubsetSize<T>(a: set<T>, b: set<T>)
    requires a <= b
    ensures |a| <= |b|
  {
    assert b == a + (b - a);
  }

  /** Two majorities of the same cluster have a member in common. */
  lemma MajoritiesIntersect(all: set<string>, a: set<string>, b: set<string>)
    requires a <= all && b <= all
    requires |a| >= Majority(|all|) && |b| >= Majority(|all|)
    ensures exists x :: x in a && x in b
  {
    if a * b == {} {
      assert |a + b| == |a| + |b|;
      SubsetSize(a + b, all);
    }
    var x :| x in a * b;
  }

  // ---- the size of a majority -------------------------------------------------------------

  ghost predicate AnyTwoMeet(all: set<string>, k: nat) {
    forall a, b :: a <= all && b <= all && |a| >= k && |b| >= k ==> a * b != {}
  }

  lemma {:induction false} SubsetOfSize(all: set<string>, k: nat) returns (a: set<string>)
    requires k <= |all|
    ensures a <= all && |a| == k
  {
    if k == |all| {
      a := all;
    } else {
      var x :| x in all;
      a := SubsetOfSize(all - {x}, k);
    }
  }

  /** A majority is the least number of servers of which any two groups have a member in common. */
  lemma MajorityIsLeast(all: set<string>, k: nat)
    requires k <= |all|
    ensures AnyTwoMeet(all, k) <==> k >= Majority(|all|)
  {
    if k >= Majority(|all|) {
      forall a, b | a <= all && b <= all && |a| >= k && |b| >= k ensures a * b != {} {
        MajoritiesIntersect(all, a, b);
        var x :| x in a && x in b;
        assert x in a * b;
      }
    } else {
      var a := SubsetOfSize(all, k);
      assert |all - a| == |all| - k;
      var b := SubsetOfSize(all - a, k);
      assert a * b == {};
    }
  }
}
