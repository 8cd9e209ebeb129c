/**
 The nesting hierarchy of a state machine, kept as a parent table, and the walks
 the runtime makes over it.  `Path` is the declarative side: the nodes from the top
 level down to a node.  Every walk is stated in terms of paths.
 */
module Hierarchy {
  import opened Wrappers

  type Node = nat

  /** Entry `n` is the parent of node `n`, if it has one. */
  type Parents = seq<Option<Node>>

  ghost predicate Ranked(p: Parents, rank: seq<nat>) {
    && |rank| == |p|
    && forall n :: 0 <= n < |p| ==> RankedAt(p, rank, n)
  }

  ghost predicate RankedAt(p: Parents, rank: seq<nat>, n: Node)
    requires |rank| == |p| && n < |p|
  {
    p[n].Some? ==> p[n].value < |p| && rank[p[n].value] < rank[n]
  }

  /** The table describes a forest: parents are nodes and following them ends. */
  ghost predicate Forest(p: Parents) {
    exists rank :: Ranked(p, rank)
  }

  ghost function Rank(p: Parents): (rank: seq<nat>)
    requires Forest(p)
    ensures Ranked(p, rank)
  {
    var rank :| Ranked(p, rank);
    rank
  }

  /** The nodes from the top level down to and including `n`. */
  ghost function Path(p: Parents, n: Node): (path: seq<Node>)
    requires Forest(p) && n < |p|
    ensures |path| > 0 && path[|path| - 1] == n
    ensures forall i :: 0 <= i < |path| ==> path[i] < |p|
    decreases Rank(p)[n]
  {
    assert RankedAt(p, Rank(p), n);
    if p[n].None? then [n] else Path(p, p[n].value) + [n]
  }

  /** The proper ancestors of `n`, outermost first. */
  ghost function Above(p: Parents, n: Node): (path: seq<Node>)
    requires Forest(p) && n < |p|
  {
    var path := Path(p, n);
    path[..|path| - 1]
  }

  lemma AboveIsParentPath(p: Parents, n: Node)
    requires Forest(p) && n < |p|
    ensures p[n].Some? ==> p[n].value < |p| && Rank(p)[p[n].value] < Rank(p)[n]
    ensures Above(p, n) == if p[n].None? then [] else Path(p, p[n].value)
  {
    assert RankedAt(p, Rank(p), n);
  }

  /** Every node of a path has the part of the path down to it as its own path. */
  lemma {:induction false} PathOfMember(p: Parents, n: Node, i: nat)
    requires Forest(p) && n < |p| && i < |Path(p, n)|
    ensures Path(p, Path(p, n)[i]) == Path(p, n)[..i + 1]
    decreases Rank(p)[n]
  {
    var path := Path(p, n);
    if i == |path| - 1 {
      assert path[..i + 1] == path;
    } else {
      AboveIsParentPath(p, n);
      PathOfMember(p, p[n].value, i);
      assert Path(p, p[n].value)[..i + 1] == path[..i + 1];
    }
  }

  /** The parent of the node at position `i` is the node just above it. */
  lemma ParentOnPath(p: Parents, n: Node, i: nat)
    requires Forest(p) && n < |p| && i < |Path(p, n)|
    ensures Path(p, n)[i] < |p|
    ensures p[Path(p, n)[i]] == if i == 0 then None else Some(Path(p, n)[i - 1])
  {
    var a := Path(p, n)[i];
    PathOfMember(p, n, i);
    AboveIsParentPath(p, a);
    assert Above(p, a) == Path(p, n)[..i];
  }

  /** Length of the longest common prefix. */
  function CommonLength<T(==)>(a: seq<T>, b: seq<T>): (k: nat)
    ensures k <= |a| && k <= |b| && a[..k] == b[..k]
    ensures k < |a| && k < |b| ==> a[k] != b[k]
  {
    if a == [] || b == [] || a[0] != b[0] then 0
    else
      var k := CommonLength(a[1..], b[1..]);
      assert a[..k + 1] == [a[0]] + a[1..][..k];
      assert b[..k + 1] == [b[0]] + b[1..][..k];
      k + 1
  }

  /**
   How many levels a transition from `source` to `target` stays inside: the common
   part of the path of `source` and the proper ancestors of `target`.
   */
  ghost function Kept(p: Parents, source: Node, target: Node): (k: nat)
    requires Forest(p) && source < |p| && target < |p|
    ensures k <= |Path(p, source)| && k < |Path(p, target)|
    ensures Path(p, source)[..k] == Path(p, target)[..k]
  {
    var k := CommonLength(Path(p, source), Above(p, target));
    assert Above(p, target)[..k] == Path(p, target)[..k];
    k
  }

  /** The node at the end of a path prefix of length `k`, `None` for the top level. */
  ghost function LastOf(path: seq<Node>, k: nat): Option<Node>
    requires k <= |path|
  {
    if k == 0 then None else Some(path[k - 1])
  }

  /** A node of `source`'s path that is a proper ancestor of `target` is among the kept levels. */
  lemma KeptCovers(p: Parents, source: Node, target: Node, i: nat)
    requires Forest(p) && source < |p| && target < |p| && i < |Path(p, source)|
    ensures Path(p, source)[i] in Above(p, target) <==> i < Kept(p, source, target)
  {
    var s, t := Path(p, source), Path(p, target);
    if i < Kept(p, source, target) {
      assert s[i] == s[..Kept(p, source, target)][i] == t[i] == Above(p, target)[i];
    }
    if s[i] in Above(p, target) {
      var j :| 0 <= j < |t| - 1 && t[j] == s[i];
      PathOfMember(p, source, i);
      PathOfMember(p, target, j);
      assert |s[..i + 1]| == |t[..j + 1]|;
      assert forall k | 0 <= k <= i :: s[k] == s[..i + 1][k] && t[k] == t[..i + 1][k];
    }
  }

  /** How many nodes the path of `n` has. */
  method Depth(p: Parents, n: Node) returns (d: nat)
    requires Forest(p) && n < |p|
    ensures d == |Path(p, n)|
  {
    d := 1;
    var cur: Node := n;
    while p[cur].Some?
      invariant cur < |p|
      invariant d + |Path(p, cur)| == |Path(p, n)| + 1
      decreases Rank(p)[cur]
    {
      AboveIsParentPath(p, cur);
      d := d + 1;
      cur := p[cur].value;
    }
  }

  /** The node `up` levels above `n`. */
  method Climb(p: Parents, n: Node, up: nat) returns (a: Node)
    requires Forest(p) && n < |p| && up < |Path(p, n)|
    ensures a == Path(p, n)[|Path(p, n)| - 1 - up]
  {
    a := n;
    for done := 0 to up
      invariant a == Path(p, n)[|Path(p, n)| - 1 - done]
    {
      ParentOnPath(p, n, |Path(p, n)| - 1 - done);
      if p[a].None? {
        break;
      }
      a := p[a].value;
    }
  }

  method IsProperAncestor(p: Parents, a: Node, n: Node) returns (yes: bool)
    requires Forest(p) && n < |p|
    ensures yes <==> a in Above(p, n)
  {
    AboveIsParentPath(p, n);
    var cur: Option<Node> := p[n];
    while cur.Some?
      invariant cur.Some? ==> cur.value < |p|
      invariant a in Above(p, n) <==> cur.Some? && a in Path(p, cur.value)
      decreases if cur.Some? then Rank(p)[cur.value] + 1 else 0
    {
      if cur.value == a {
        return true;
      }
      AboveIsParentPath(p, cur.value);
      cur := p[cur.value];
    }
    return false;
  }

  /**
   Where the paths of `source` and of `target`'s parent part: walking up from `source`, the first
   node that encloses `target`.
   */
  method Lca(p: Parents, source: Node, target: Node) returns (stop: Option<Node>)
    requires Forest(p) && source < |p| && target < |p|
    ensures stop == LastOf(Path(p, source), Kept(p, source, target))
    ensures stop.Some? ==> stop.value in Path(p, source) && stop.value in Above(p, target)
    ensures forall a :: a in Path(p, source) && a in Above(p, target) ==>
                          stop.Some? && |Path(p, a)| <= |Path(p, stop.value)|
  {
    ghost var path := Path(p, source);
    ghost var i := |path|;
    var cur: Option<Node> := Some(source);
    while cur.Some?
      invariant 0 <= i <= |path|
      invariant cur == LastOf(path, i)
      invariant Kept(p, source, target) <= i
      decreases i
    {
      KeptCovers(p, source, target, i - 1);
      var yes := IsProperAncestor(p, cur.value, target);
      if yes {
        break;
      }
      ParentOnPath(p, source, i - 1);
      cur := p[cur.value];
      i := i - 1;
    }
    assert i == Kept(p, source, target);
    LcaIsDeepest(p, source, target);
    return cur;
  }

  lemma LcaIsDeepest(p: Parents, source: Node, target: Node)
    requires Forest(p) && source < |p| && target < |p|
    ensures var stop := LastOf(Path(p, source), Kept(p, source, target));
            && (stop.Some? ==> stop.value in Path(p, source) && stop.value in Above(p, target))
            && forall a :: a in Path(p, source) && a in Above(p, target) ==>
                             stop.Some? && |Path(p, a)| <= |Path(p, stop.value)|
  {
    var s, k := Path(p, source), Kept(p, source, target);
    if k > 0 {
      KeptCovers(p, source, target, k - 1);
      PathOfMember(p, source, k - 1);
    }
    forall a | a in s && a in Above(p, target)
      ensures k > 0 && |Path(p, a)| <= k
    {
      var i :| 0 <= i < |s| && s[i] == a;
      KeptCovers(p, source, target, i);
      PathOfMember(p, source, i);
    }
  }
}
