/**
 * The filtered tree the builders produce (`TreeNode`) and its summary fold:
 * number of files, total size and largest size.
 */
module Tree {

  datatype TreeNode = TreeNode(
    name: string,
    path: string,
    isDir: bool,
    size: nat,
    children: seq<TreeNode>,
    isBinary: bool)

  datatype Summary = Summary(fileCount: nat, totalSize: nat, maxSize: nat)

  /** Files carry no children; every node the builders make has this shape. */
  predicate WellFormed(t: TreeNode)
    decreases t
  {
    (!t.isDir ==> t.children == [])
    && forall k :: 0 <= k < |t.children| ==> WellFormed(t.children[k])
  }

  /** The file nodes of the tree, in pre-order (directories contribute none). */
  function Leaves(t: TreeNode): seq<TreeNode>
    decreases t, 1
  {
    if !t.isDir then [t] else LeavesOf(t.children)
  }

  function LeavesOf(cs: seq<TreeNode>): seq<TreeNode>
    decreases cs, 0
  {
    if cs == [] then [] else LeavesOf(cs[..|cs| - 1]) + Leaves(cs[|cs| - 1])
  }

  /** The leaves of the first `i` children, as a loop over the children collects them. */
  function LeavesOfFirst(cs: seq<TreeNode>, i: nat): seq<TreeNode>
    requires i <= |cs|
    decreases i
  {
    if i == 0 then [] else LeavesOfFirst(cs, i - 1) + Leaves(cs[i - 1])
  }

  lemma {:induction false} LeavesOfFirstPrefix(cs: seq<TreeNode>, i: nat)
    requires i <= |cs|
    ensures LeavesOfFirst(cs, i) == LeavesOf(cs[..i])
    decreases i
  {
    if i > 0 {
      LeavesOfFirstPrefix(cs, i - 1);
      assert cs[..i][..i - 1] == cs[..i - 1];
    }
  }

  /** A directory's leaves are those its children's loop collects. */
  lemma DirLeaves(t: TreeNode)
    requires t.isDir
    ensures Leaves(t) == LeavesOfFirst(t.children, |t.children|)
  {
    LeavesOfFirstPrefix(t.children, |t.children|);
    assert t.children[..|t.children|] == t.children;
  }

  /** The leaves of a longer prefix of the children are at least as many. */
  lemma {:induction false} LeavesOfFirstGrow(cs: seq<TreeNode>, i: nat)
    requires i <= |cs|
    ensures |LeavesOfFirst(cs, i)| <= |LeavesOfFirst(cs, |cs|)|
    decreases |cs| - i
  {
    if i < |cs| {
      LeavesOfFirstGrow(cs, i + 1);
    }
  }

  function SumSizes(ls: seq<TreeNode>): nat {
    if ls == [] then 0 else SumSizes(ls[..|ls| - 1]) + ls[|ls| - 1].size
  }

  /** The largest size in `ls`, or 0 when empty (sizes are never negative). */
  function MaxSize(ls: seq<TreeNode>): (m: nat)
    ensures forall k :: 0 <= k < |ls| ==> ls[k].size <= m
    ensures ls == [] ==> m == 0
  {
    if ls == [] then 0
    else
      var m := MaxSize(ls[..|ls| - 1]);
      if ls[|ls| - 1].size > m then ls[|ls| - 1].size else m
  }

  /** The maximum is the size of one of the nodes. */
  lemma {:induction false} MaxSizeAttained(ls: seq<TreeNode>) returns (k: nat)
    requires ls != []
    ensures k < |ls| && ls[k].size == MaxSize(ls)
  {
    var pre := ls[..|ls| - 1];
    if ls[|ls| - 1].size > MaxSize(pre) || pre == [] {
      k := |ls| - 1;
    } else {
      k := MaxSizeAttained(pre);
    }
  }

  function Max(a: nat, b: nat): nat {
    if b > a then b else a
  }

  /** What `summary` folds a node into: a file is (1, size, size). */
  function SummaryOf(t: TreeNode): Summary
    decreases t, 1
  {
    if !t.isDir then Summary(1, t.size, t.size)
    else SummaryOfChildren(t.children, |t.children|)
  }

  /** The fold over the first `i` children, as the accumulation loop builds it. */
  function SummaryOfChildren(cs: seq<TreeNode>, i: nat): Summary
    requires i <= |cs|
    decreases cs, 0, i
  {
    if i == 0 then Summary(0, 0, 0)
    else
      var s := SummaryOfChildren(cs, i - 1);
      var c := SummaryOf(cs[i - 1]);
      Summary(s.fileCount + c.fileCount, s.totalSize + c.totalSize, Max(s.maxSize, c.maxSize))
  }

  /** TreeNode.summary: recursion for directories, accumulation over the children. */
  method Summarize(t: TreeNode) returns (s: Summary)
    ensures s == SummaryOf(t)
    decreases t
  {
    if !t.isDir {
      return Summary(1, t.size, t.size);
    }
    s := Summary(0, 0, 0);
    var i := 0;
    while i < |t.children|
      invariant 0 <= i <= |t.children|
      invariant s == SummaryOfChildren(t.children, i)
    {
      var c := Summarize(t.children[i]);
      var maxSize := s.maxSize;
      if c.maxSize > maxSize {
        maxSize := c.maxSize;
      }
      s := Summary(s.fileCount + c.fileCount, s.totalSize + c.totalSize, maxSize);
      i := i + 1;
    }
  }

  lemma SumSizesAppend(a: seq<TreeNode>, b: seq<TreeNode>)
    ensures SumSizes(a + b) == SumSizes(a) + SumSizes(b)
    decreases |b|
  {
    if b != [] {
      assert (a + b)[..|a + b| - 1] == a + b[..|b| - 1];
      SumSizesAppend(a, b[..|b| - 1]);
    } else {
      assert a + b == a;
    }
  }

  lemma MaxSizeAppend(a: seq<TreeNode>, b: seq<TreeNode>)
    ensures MaxSize(a + b) == Max(MaxSize(a), MaxSize(b))
  {
    var ab := a + b;
    var m := MaxSize(ab);
    forall k | 0 <= k < |a| ensures a[k].size <= m { assert ab[k] == a[k]; }
    forall k | 0 <= k < |b| ensures b[k].size <= m { assert ab[|a| + k] == b[k]; }
    if a != [] {
      var k := MaxSizeAttained(a);
      assert ab[k] == a[k];
    }
    if b != [] {
      var k := MaxSizeAttained(b);
      assert ab[|a| + k] == b[k];
    }
    if ab != [] {
      var k := MaxSizeAttained(ab);
      if k < |a| {
        assert ab[k] == a[k];
      } else {
        assert ab[k] == b[k - |a|];
      }
    }
  }

  /**
   * The summary counts the file leaves, sums their sizes and takes their
   * maximum (0 when there is none).
   */
  lemma {:induction false} SummaryIsLeafFold(t: TreeNode)
    ensures SummaryOf(t) == Summary(|Leaves(t)|, SumSizes(Leaves(t)), MaxSize(Leaves(t)))
    decreases t, 1
  {
    if t.isDir {
      ChildrenSummaryIsLeafFold(t.children, |t.children|);
      assert t.children[..|t.children|] == t.children;
    } else {
      assert Leaves(t) == [t];
      assert [t][..0] == [];
    }
  }

  lemma {:induction false} ChildrenSummaryIsLeafFold(cs: seq<TreeNode>, i: nat)
    requires i <= |cs|
    ensures SummaryOfChildren(cs, i) ==
      Summary(|LeavesOf(cs[..i])|, SumSizes(LeavesOf(cs[..i])), MaxSize(LeavesOf(cs[..i])))
    decreases cs, 0, i
  {
    if i > 0 {
      ChildrenSummaryIsLeafFold(cs, i - 1);
      SummaryIsLeafFold(cs[i - 1]);
      var pre := cs[..i];
      assert pre[..|pre| - 1] == cs[..i - 1];
      var l0, l1 := LeavesOf(cs[..i - 1]), Leaves(cs[i - 1]);
      assert LeavesOf(pre) == l0 + l1;
      SumSizesAppend(l0, l1);
      MaxSizeAppend(l0, l1);
    }
  }

  /** A childless directory summarises to (0, 0, 0). */
  lemma EmptyDirSummary(name: string, path: string)
    ensures SummaryOf(TreeNode(name, path, true, 0, [], false)) == Summary(0, 0, 0)
  {
  }
}
