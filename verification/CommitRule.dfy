/** The leader's commit decision (compute_new_commit_index in cluster/raft_node.hpp). */
module CommitRule {
  import opened RaftTypes

  ghost predicate IsLeast(s: set<NodeId>, k: NodeId) {
    k in s && forall j :: j in s ==> k <= j
  }

  lemma {:induction false} LeastExists(s: set<NodeId>)
    requires s != {}
    ensures exists k :: IsLeast(s, k)
    decreases |s|
  {
    if forall x :: x !in s { assert false; }
    var x :| x in s;
    var rest := s - {x};
    if rest == {} {
      forall j | j in s ensures x <= j { assert j == x || j in rest; }
      assert IsLeast(s, x);
    } else {
      LeastExists(rest);
      var y :| IsLeast(rest, y);
      LeastOfBoth(s, x, y);
    }
  }

  lemma LeastOfBoth(s: set<NodeId>, x: NodeId, y: NodeId)
    requires x in s && IsLeast(s - {x}, y)
    ensures exists k :: IsLeast(s, k)
  {
    var z := if x <= y then x else y;
    forall j | j in s ensures z <= j { assert j == x || j in s - {x}; }
    assert IsLeast(s, z);
  }

  function LeastKey(m: map<NodeId, nat>): (k: NodeId)
    requires m != map[]
    ensures k in m && forall j :: j in m ==> k <= j
  {
    LeastExists(m.Keys);
    var k :| k in m.Keys && forall j :: j in m.Keys ==> k <= j;
    k
  }

  /** The values of an ordered map, in key order. */
  function Values(m: map<NodeId, nat>): (r: seq<nat>)
    ensures |r| == |m|
    decreases |m|
  {
    if m == map[] then []
    else
      var k := LeastKey(m);
      assert (m - {k}).Keys == m.Keys - {k};
      assert |m| == |m.Keys| && |m - {k}| == |(m - {k}).Keys|;
      [m[k]] + Values(m - {k})
  }

  ghost predicate Descending(s: seq<nat>) {
    forall i, j :: 0 <= i < j < |s| ==> s[i] >= s[j]
  }

  function InsertDescending(s: seq<nat>, x: nat): (r: seq<nat>)
    ensures |r| == |s| + 1
  {
    if s == [] || x >= s[0] then [x] + s else [s[0]] + InsertDescending(s[1..], x)
  }

  function SortDescending(s: seq<nat>): (r: seq<nat>)
    ensures |r| == |s|
  {
    if s == [] then [] else InsertDescending(SortDescending(s[1..]), s[0])
  }

  /** The decision: the majority-th highest stored index, if it is new and of the leader's own term. */
  function NewCommitIndex(lastIndex: nat, matches: map<NodeId, nat>, clusterSize: nat,
                                commit: nat, term: nat, termAt: nat -> nat): nat
    requires Majority(clusterSize) <= |matches| + 1
  {
    var candidate := SortDescending([lastIndex] + Values(matches))[Majority(clusterSize) - 1];
    if candidate > commit && termAt(candidate) == term then candidate else commit
  }

  // ---------------------------------------------------------------- what the decision means

  /** Followers known to store everything up to index i. */
  ghost function Holders(matches: map<NodeId, nat>, i: nat): set<NodeId> {
    set p | p in matches && matches[p] >= i
  }

  /** Index i is stored on a majority: the known holders, and the leader when its own log reaches i. */
  ghost predicate OnMajority(lastIndex: nat, matches: map<NodeId, nat>, clusterSize: nat, i: nat) {
    |Holders(matches, i)| + (if lastIndex >= i then 1 else 0) >= Majority(clusterSize)
  }

  ghost function CountAtLeast(s: seq<nat>, v: nat): nat {
    if s == [] then 0 else (if s[0] >= v then 1 else 0) + CountAtLeast(s[1..], v)
  }

  lemma {:induction false} InsertKeepsCount(s: seq<nat>, x: nat, v: nat)
    ensures CountAtLeast(InsertDescending(s, x), v) == CountAtLeast(s, v) + (if x >= v then 1 else 0)
  {
    if !(s == [] || x >= s[0]) {
      InsertKeepsCount(s[1..], x, v);
      assert InsertDescending(s, x)[1..] == InsertDescending(s[1..], x);
    } else {
      assert InsertDescending(s, x)[1..] == s;
    }
  }

  lemma {:induction false} InsertKeepsDescending(s: seq<nat>, x: nat)
    requires Descending(s)
    ensures Descending(InsertDescending(s, x))
    ensures forall y :: y in InsertDescending(s, x) ==> y == x || y in s
  {
    if !(s == [] || x >= s[0]) {
      InsertKeepsDescending(s[1..], x);
      var r := InsertDescending(s[1..], x);
      assert forall k :: 0 <= k < |r| ==> r[k] in r;
      assert forall y :: y in s[1..] ==> y <= s[0];
    }
  }

  lemma {:induction false} SortIsRight(s: seq<nat>, v: nat)
    ensures Descending(SortDescending(s))
    ensures CountAtLeast(SortDescending(s), v) == CountAtLeast(s, v)
  {
    if s != [] {
      SortIsRight(s[1..], v);
      InsertKeepsDescending(SortDescending(s[1..]), s[0]);
      InsertKeepsCount(SortDescending(s[1..]), s[0], v);
    }
  }

  /** In a descending sequence the k-th element is at least v exactly when k elements are. */
  lemma {:induction false} KthAtLeast(s: seq<nat>, k: nat, v: nat)
    requires Descending(s) && 1 <= k <= |s|
    ensures s[k - 1] >= v <==> CountAtLeast(s, v) >= k
  {
    var t := s[1..];
    if s[0] < v {
      NoneAtLeast(s, v);
    } else if k > 1 {
      KthAtLeast(t, k - 1, v);
    }
  }

  lemma {:induction false} NoneAtLeast(s: seq<nat>, v: nat)
    requires forall i :: 0 <= i < |s| ==> s[i] < v
    ensures CountAtLeast(s, v) == 0
  {
    if s != [] { NoneAtLeast(s[1..], v); }
  }

  lemma {:induction false} CountValues(m: map<NodeId, nat>, v: nat)
    ensures CountAtLeast(Values(m), v) == |Holders(m, v)|
    decreases |m|
  {
    if m == map[] {
      assert Holders(m, v) == {};
    } else {
      var k := LeastKey(m);
      Fewer(m, k);
      CountValues(m - {k}, v);
      HoldersWithout(m, k, v);
      assert Values(m)[1..] == Values(m - {k});
    }
  }

  lemma Fewer(m: map<NodeId, nat>, k: NodeId)
    requires k in m
    ensures |m - {k}| < |m|
  {
    assert (m - {k}).Keys == m.Keys - {k};
    assert |m| == |m.Keys| && |m - {k}| == |(m - {k}).Keys|;
  }

  lemma HoldersWithout(m: map<NodeId, nat>, k: NodeId, v: nat)
    requires k in m
    ensures |Holders(m, v)| == |Holders(m - {k}, v)| + (if m[k] >= v then 1 else 0)
  {
    if m[k] >= v {
      assert Holders(m, v) == Holders(m - {k}, v) + {k};
    } else {
      assert Holders(m, v) == Holders(m - {k}, v);
    }
  }

  /** The candidate index is the greatest one stored on a majority. */
  lemma CandidateIsGreatestOnMajority(lastIndex: nat, matches: map<NodeId, nat>, clusterSize: nat, i: nat)
    requires Majority(clusterSize) <= |matches| + 1
    ensures i <= SortDescending([lastIndex] + Values(matches))[Majority(clusterSize) - 1]
            <==> OnMajority(lastIndex, matches, clusterSize, i)
  {
    var values := [lastIndex] + Values(matches);
    SortIsRight(values, i);
    KthAtLeast(SortDescending(values), Majority(clusterSize), i);
    assert values[1..] == Values(matches);
    CountValues(matches, i);
  }

  /**
   * Sound and maximal. The result is either the old commit index or an index
   * above it that is on a majority and of the current term; and when the log's
   * terms do not decrease or exceed the current one, no such index is missed.
   */
  lemma CommitRuleExact(lastIndex: nat, matches: map<NodeId, nat>, clusterSize: nat,
                        commit: nat, term: nat, termAt: nat -> nat)
    requires Majority(clusterSize) <= |matches| + 1
    ensures var r := NewCommitIndex(lastIndex, matches, clusterSize, commit, term, termAt);
            && (r != commit ==> r > commit && termAt(r) == term && OnMajority(lastIndex, matches, clusterSize, r))
            && ((&& (forall p :: p in matches ==> matches[p] <= lastIndex)
                 && (forall i, j :: 1 <= i <= j <= lastIndex ==> termAt(i) <= termAt(j) <= term))
                ==> forall i :: i > commit && termAt(i) == term && OnMajority(lastIndex, matches, clusterSize, i) ==> i <= r)
  {
    var c := SortDescending([lastIndex] + Values(matches))[Majority(clusterSize) - 1];
    CandidateIsGreatestOnMajority(lastIndex, matches, clusterSize, c);
    if && (forall p :: p in matches ==> matches[p] <= lastIndex)
       && (forall i, j :: 1 <= i <= j <= lastIndex ==> termAt(i) <= termAt(j) <= term)
    {
      CandidateIsGreatestOnMajority(lastIndex, matches, clusterSize, lastIndex + 1);
      assert Holders(matches, lastIndex + 1) == {};
      forall i | i > commit && termAt(i) == term && OnMajority(lastIndex, matches, clusterSize, i)
        ensures i <= NewCommitIndex(lastIndex, matches, clusterSize, commit, term, termAt)
      {
        CandidateIsGreatestOnMajority(lastIndex, matches, clusterSize, i);
        assert termAt(i) <= termAt(c) <= term;
      }
    }
  }

  /**
   * The own-term test is needed: an index of an older term stays uncommitted
   * however many nodes store it (the Figure 8 case of the Raft paper).
   */
  lemma OldTermNeverCommitsDirectly(lastIndex: nat, matches: map<NodeId, nat>, clusterSize: nat,
                                    commit: nat, term: nat, termAt: nat -> nat)
    requires Majority(clusterSize) <= |matches| + 1
    requires forall i :: commit < i && OnMajority(lastIndex, matches, clusterSize, i) ==> termAt(i) != term
    ensures NewCommitIndex(lastIndex, matches, clusterSize, commit, term, termAt) == commit
  {
    CommitRuleExact(lastIndex, matches, clusterSize, commit, term, termAt);
  }
}
