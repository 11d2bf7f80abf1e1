/**
 * Reachability (`hasAllowed`) and the two tree builders: `filterTree` for
 * tree mode and `filterSourceTree` for source mode.
 */
module Builder {
  import opened Wrappers
  import opened Text
  import opened Utf8
  import opened Helpers
  import opened Policy
  import opened Tree
  import opened FileSystem

  /** What a builder yields: a node, ErrFilterSkipped, or a filesystem error. */
  datatype Outcome<T> = Done(value: T) | Skip | Fail(error: FsError)

  // ---- Reference selections over file lists ----

  /** The files that isAllowed accepts in the given mode, in order. */
  function AllowedIn(cfg: Config, fs: seq<FileEntry>, isSource: bool): (r: seq<FileEntry>)
    ensures forall k :: 0 <= k < |r| ==> Allowed(cfg, r[k].path, isSource)
  {
    if fs == [] then []
    else
      var last := fs[|fs| - 1];
      AllowedIn(cfg, fs[..|fs| - 1], isSource) + (if Allowed(cfg, last.path, isSource) then [last] else [])
  }

  /** The files whose size does not exceed the threshold, in order. */
  function UnderThreshold(thresholdMb: real, fs: seq<FileEntry>): (r: seq<FileEntry>)
    ensures forall k :: 0 <= k < |r| ==> !ExceedsThreshold(r[k].size, thresholdMb)
  {
    if fs == [] then []
    else
      var last := fs[|fs| - 1];
      UnderThreshold(thresholdMb, fs[..|fs| - 1])
        + (if ExceedsThreshold(last.size, thresholdMb) then [] else [last])
  }

  /** The files that source mode prints: allowed in source mode and not above the threshold. */
  function SourceSelection(cfg: Config, fs: seq<FileEntry>): seq<FileEntry> {
    UnderThreshold(cfg.sourceThreshold, AllowedIn(cfg, fs, true))
  }

  lemma {:induction false} AllowedInAppend(cfg: Config, a: seq<FileEntry>, b: seq<FileEntry>, isSource: bool)
    ensures AllowedIn(cfg, a + b, isSource) == AllowedIn(cfg, a, isSource) + AllowedIn(cfg, b, isSource)
    decreases |b|
  {
    if b == [] {
      assert a + b == a;
    } else {
      assert (a + b)[..|a + b| - 1] == a + b[..|b| - 1];
      AllowedInAppend(cfg, a, b[..|b| - 1], isSource);
    }
  }

  lemma {:induction false} UnderThresholdAppend(t: real, a: seq<FileEntry>, b: seq<FileEntry>)
    ensures UnderThreshold(t, a + b) == UnderThreshold(t, a) + UnderThreshold(t, b)
    decreases |b|
  {
    if b == [] {
      assert a + b == a;
    } else {
      assert (a + b)[..|a + b| - 1] == a + b[..|b| - 1];
      UnderThresholdAppend(t, a, b[..|b| - 1]);
    }
  }

  lemma SourceSelectionAppend(cfg: Config, a: seq<FileEntry>, b: seq<FileEntry>)
    ensures SourceSelection(cfg, a + b) == SourceSelection(cfg, a) + SourceSelection(cfg, b)
  {
    AllowedInAppend(cfg, a, b, true);
    UnderThresholdAppend(cfg.sourceThreshold, AllowedIn(cfg, a, true), AllowedIn(cfg, b, true));
  }

  /** The leaves of a built tree as file entries. */
  function Entries(ls: seq<TreeNode>): (r: seq<FileEntry>)
    ensures |r| == |ls|
    ensures forall k :: 0 <= k < |ls| ==> r[k] == FileEntry(ls[k].path, ls[k].size)
  {
    seq(|ls|, k requires 0 <= k < |ls| => FileEntry(ls[k].path, ls[k].size))
  }

  lemma EntriesAppend(a: seq<TreeNode>, b: seq<TreeNode>)
    ensures Entries(a + b) == Entries(a) + Entries(b)
  {
  }

  lemma LeavesOfSnoc(cs: seq<TreeNode>, c: TreeNode)
    ensures LeavesOf(cs + [c]) == LeavesOf(cs) + Leaves(c)
  {
    assert (cs + [c])[..|cs|] == cs;
  }

  /** Every directory in the tree has at least one child. */
  predicate DirsNonEmpty(t: TreeNode)
    decreases t
  {
    (t.isDir ==> t.children != [])
    && forall k :: 0 <= k < |t.children| ==> DirsNonEmpty(t.children[k])
  }

  /** Every node in `cs` is well formed with no empty directory. */
  predicate AllShaped(cs: seq<TreeNode>) {
    forall k :: 0 <= k < |cs| ==> WellFormed(cs[k]) && DirsNonEmpty(cs[k])
  }

  lemma ShapedSnoc(cs: seq<TreeNode>, c: TreeNode)
    requires AllShaped(cs) && WellFormed(c) && DirsNonEmpty(c)
    ensures AllShaped(cs + [c])
  {
  }

  // ---- hasAllowed ----

  /** hasAllowed: a file is its own verdict; a directory asks its entries in order. */
  function HasAllowed(cfg: Config, n: Node, path: string, isSource: bool): Result<bool, FsError>
    decreases n, 1
  {
    match n
    case File(_, _, _) => Success(Allowed(cfg, path, isSource))
    case Dir(_, entries, listable) =>
      if !listable then Failure(ListError(path)) else AnyAllowed(cfg, entries, path, isSource)
  }

  /** The entry loop: the first error or the first `true` ends it. */
  function AnyAllowed(cfg: Config, entries: seq<Node>, path: string, isSource: bool): Result<bool, FsError>
    decreases entries, 0
  {
    if entries == [] then Success(false)
    else
      var last := entries[|entries| - 1];
      match AnyAllowed(cfg, entries[..|entries| - 1], path, isSource)
      case Failure(e) => Failure(e)
      case Success(true) => Success(true)
      case Success(false) => HasAllowed(cfg, last, Join(path, last.name), isSource)
  }

  /** A `true` or `false` answer is right: some file below is allowed exactly when it says so. */
  lemma {:induction false} HasAllowedSound(cfg: Config, n: Node, path: string, isSource: bool)
    ensures HasAllowed(cfg, n, path, isSource).Success? ==>
      (HasAllowed(cfg, n, path, isSource).value <==> AllowedIn(cfg, Files(n, path), isSource) != [])
    decreases n, 1
  {
    match n
    case File(_, content, _) =>
      assert [FileEntry(path, |content|)][..0] == [];
    case Dir(_, entries, listable) =>
      AnyAllowedSound(cfg, entries, path, isSource);
  }

  lemma {:induction false} AnyAllowedSound(cfg: Config, entries: seq<Node>, path: string, isSource: bool)
    ensures AnyAllowed(cfg, entries, path, isSource).Success? ==>
      (AnyAllowed(cfg, entries, path, isSource).value <==> AllowedIn(cfg, FilesOf(entries, path), isSource) != [])
    decreases entries, 0
  {
    if entries != [] {
      var pre := entries[..|entries| - 1];
      var last := entries[|entries| - 1];
      var cp := Join(path, last.name);
      AnyAllowedSound(cfg, pre, path, isSource);
      HasAllowedSound(cfg, last, cp, isSource);
      AllowedInAppend(cfg, FilesOf(pre, path), Files(last, cp), isSource);
    }
  }

  /** Once every directory can be listed, hasAllowed always answers: it never reads a file. */
  lemma {:induction false} HasAllowedTotal(cfg: Config, n: Node, path: string, isSource: bool)
    requires Listable(n)
    ensures HasAllowed(cfg, n, path, isSource).Success?
    decreases n, 1
  {
    if n.Dir? {
      AnyAllowedTotal(cfg, n.entries, path, isSource);
    }
  }

  lemma {:induction false} AnyAllowedTotal(cfg: Config, entries: seq<Node>, path: string, isSource: bool)
    requires forall k :: 0 <= k < |entries| ==> Listable(entries[k])
    ensures AnyAllowed(cfg, entries, path, isSource).Success?
    decreases entries, 0
  {
    if entries != [] {
      var last := entries[|entries| - 1];
      AnyAllowedTotal(cfg, entries[..|entries| - 1], path, isSource);
      HasAllowedTotal(cfg, last, Join(path, last.name), isSource);
    }
  }

  /** On a listable tree: true exactly when some file below is allowed; false for an empty directory. */
  lemma HasAllowedIff(cfg: Config, n: Node, path: string, isSource: bool)
    requires Listable(n)
    ensures HasAllowed(cfg, n, path, isSource) == Success(AllowedIn(cfg, Files(n, path), isSource) != [])
    ensures n.Dir? && n.entries == [] ==> HasAllowed(cfg, n, path, isSource) == Success(false)
  {
    HasAllowedTotal(cfg, n, path, isSource);
    HasAllowedSound(cfg, n, path, isSource);
  }

  // ---- filterTree ----

  /** filterTree: an allowed file becomes a leaf, a directory always becomes a node (or fails). */
  function FilteredTree(cfg: Config, n: Node, path: string): Outcome<TreeNode> {
    match n
    case File(name, content, _) =>
      if Allowed(cfg, path, false) then Done(TreeNode(name, path, false, |content|, [], false)) else Skip
    case Dir(_, _, _) =>
      match FilteredDir(cfg, n, path)
      case Failure(e) => Fail(e)
      case Success(t) => Done(t)
  }

  /** filterTree on a directory. */
  function FilteredDir(cfg: Config, d: Node, path: string): Result<TreeNode, FsError>
    requires d.Dir?
    decreases d, 2
  {
    if !d.listable then Failure(ListError(path))
    else
      match FilteredChildren(cfg, d.entries, path)
      case Failure(e) => Failure(e)
      case Success(cs) => Success(TreeNode(d.name, path, true, 0, cs, false))
  }

  /** The children so far, extended by the outcome of one more entry. */
  function AddChild(children: seq<TreeNode>, c: Result<Option<TreeNode>, FsError>): Result<seq<TreeNode>, FsError> {
    match c
    case Failure(e) => Failure(e)
    case Success(None) => Success(children)
    case Success(Some(x)) => Success(children + [x])
  }

  /** The children loop, over the first entries. */
  function FilteredChildren(cfg: Config, entries: seq<Node>, path: string): Result<seq<TreeNode>, FsError>
    decreases entries, 1
  {
    if entries == [] then Success([])
    else
      var last := entries[|entries| - 1];
      match FilteredChildren(cfg, entries[..|entries| - 1], path)
      case Failure(e) => Failure(e)
      case Success(cs) => AddChild(cs, TreeChild(cfg, last, Join(path, last.name)))
  }

  /**
   * One entry: a directory is entered only when hasAllowed says so; an
   * allowed file is read to tell whether it is binary.
   */
  function TreeChild(cfg: Config, e: Node, childPath: string): Result<Option<TreeNode>, FsError>
    decreases e, 3
  {
    match e
    case File(name, content, readable) =>
      if !Allowed(cfg, childPath, false) then Success(None)
      else if !readable then Failure(ReadError(childPath))
      else Success(Some(TreeNode(name, childPath, false, |content|, [], Binary(content))))
    case Dir(_, _, _) =>
      match HasAllowed(cfg, e, childPath, false)
      case Failure(err) => Failure(err)
      case Success(false) => Success(None)
      case Success(true) =>
        match FilteredDir(cfg, e, childPath)
        case Failure(err) => Failure(err)
        case Success(c) => Success(Some(c))
  }

  /** An error in the first entries ends the children loop with that error. */
  lemma {:induction false} ChildrenFailurePersists(cfg: Config, entries: seq<Node>, i: nat, path: string)
    requires i <= |entries|
    requires FilteredChildren(cfg, entries[..i], path).Failure?
    ensures FilteredChildren(cfg, entries, path) == FilteredChildren(cfg, entries[..i], path)
    decreases |entries|
  {
    if i == |entries| {
      assert entries[..i] == entries;
    } else {
      var pre := entries[..|entries| - 1];
      assert pre[..i] == entries[..i];
      ChildrenFailurePersists(cfg, pre, i, path);
    }
  }

  /** filterTree, walking the entries and appending to the node's children. */
  method FilterTree(cfg: Config, n: Node, path: string) returns (r: Outcome<TreeNode>)
    ensures r == FilteredTree(cfg, n, path)
  {
    if n.File? {
      var ok := IsAllowed(cfg, path, false);
      if ok {
        return Done(TreeNode(n.name, path, false, |n.content|, [], false));
      }
      return Skip;
    }
    var d := FilterDir(cfg, n, path);
    if d.Failure? {
      return Fail(d.error);
    }
    return Done(d.value);
  }

  method FilterDir(cfg: Config, d: Node, path: string) returns (r: Result<TreeNode, FsError>)
    requires d.Dir?
    ensures r == FilteredDir(cfg, d, path)
    decreases d, 0
  {
    if !d.listable {
      return Failure(ListError(path));
    }
    var children: seq<TreeNode> := [];
    var i := 0;
    while i < |d.entries|
      invariant 0 <= i <= |d.entries|
      invariant FilteredChildren(cfg, d.entries[..i], path) == Success(children)
    {
      var e := d.entries[i];
      var childPath := Join(path, e.name);
      var c := FilterTreeChild(cfg, e, childPath);
      ChildrenStep(cfg, d.entries, i, path, children, c);
      if c.Failure? {
        ChildrenFailurePersists(cfg, d.entries, i + 1, path);
        return Failure(c.error);
      }
      if c.value.Some? {
        children := children + [c.value.value];
      }
      i := i + 1;
    }
    assert d.entries[..|d.entries|] == d.entries;
    return Success(TreeNode(d.name, path, true, 0, children, false));
  }

  /** One more entry of the children loop. */
  lemma ChildrenStep(cfg: Config, entries: seq<Node>, i: nat, path: string,
                     children: seq<TreeNode>, c: Result<Option<TreeNode>, FsError>)
    requires i < |entries| && FilteredChildren(cfg, entries[..i], path) == Success(children)
    requires c == TreeChild(cfg, entries[i], Join(path, entries[i].name))
    ensures FilteredChildren(cfg, entries[..i + 1], path) == AddChild(children, c)
  {
    var upto := entries[..i + 1];
    assert upto[..|upto| - 1] == entries[..i];
    assert upto[|upto| - 1] == entries[i];
  }

  /** One entry of filterTree's loop. */
  method FilterTreeChild(cfg: Config, e: Node, childPath: string) returns (r: Result<Option<TreeNode>, FsError>)
    ensures r == TreeChild(cfg, e, childPath)
    decreases e, 1
  {
    if e.File? {
      var allowed := IsAllowed(cfg, childPath, false);
      if !allowed {
        return Success(None);
      }
      if !e.readable {
        return Failure(ReadError(childPath));
      }
      var binary := IsBinary(e.content);
      return Success(Some(TreeNode(e.name, childPath, false, |e.content|, [], binary)));
    }
    var ok := HasAllowed(cfg, e, childPath, false);
    if ok.Failure? {
      return Failure(ok.error);
    }
    if !ok.value {
      return Success(None);
    }
    var c := FilterDir(cfg, e, childPath);
    if c.Failure? {
      return Failure(c.error);
    }
    return Success(Some(c.value));
  }

  function OptionLeaves(o: Option<TreeNode>): seq<TreeNode> {
    match o
    case None => []
    case Some(c) => Leaves(c)
  }

  /**
   * The leaves of the tree filterTree builds are exactly the tree-mode-allowed
   * files, with their sizes, in listing order.
   */
  lemma FilteredTreeLeaves(cfg: Config, n: Node, path: string)
    ensures FilteredTree(cfg, n, path).Done? ==>
      Entries(Leaves(FilteredTree(cfg, n, path).value)) == AllowedIn(cfg, Files(n, path), false)
  {
    match n
    case File(_, content, _) =>
      assert [FileEntry(path, |content|)][..0] == [];
    case Dir(_, _, _) =>
      FilteredDirLeaves(cfg, n, path);
  }

  lemma {:induction false} FilteredDirLeaves(cfg: Config, d: Node, path: string)
    requires d.Dir?
    ensures FilteredDir(cfg, d, path).Success? ==>
      Entries(Leaves(FilteredDir(cfg, d, path).value)) == AllowedIn(cfg, Files(d, path), false)
    decreases d, 2
  {
    FilteredChildrenLeaves(cfg, d.entries, path);
  }

  lemma {:induction false} FilteredChildrenLeaves(cfg: Config, entries: seq<Node>, path: string)
    ensures FilteredChildren(cfg, entries, path).Success? ==>
      Entries(LeavesOf(FilteredChildren(cfg, entries, path).value)) == AllowedIn(cfg, FilesOf(entries, path), false)
    decreases entries, 1
  {
    if entries != [] {
      var pre := entries[..|entries| - 1];
      var last := entries[|entries| - 1];
      var cp := Join(path, last.name);
      FilteredChildrenLeaves(cfg, pre, path);
      TreeChildLeaves(cfg, last, cp);
      AllowedInAppend(cfg, FilesOf(pre, path), Files(last, cp), false);
      var r := FilteredChildren(cfg, pre, path);
      if r.Success? && TreeChild(cfg, last, cp).Success? {
        var c := TreeChild(cfg, last, cp).value;
        if c.Some? {
          LeavesOfSnoc(r.value, c.value);
          EntriesAppend(LeavesOf(r.value), Leaves(c.value));
        }
      }
    }
  }

  lemma {:induction false} TreeChildLeaves(cfg: Config, e: Node, childPath: string)
    ensures TreeChild(cfg, e, childPath).Success? ==>
      Entries(OptionLeaves(TreeChild(cfg, e, childPath).value)) == AllowedIn(cfg, Files(e, childPath), false)
    decreases e, 3
  {
    match e
    case Dir(_, _, _) =>
      HasAllowedSound(cfg, e, childPath, false);
      FilteredDirLeaves(cfg, e, childPath);
    case File(_, content, _) =>
      assert [FileEntry(childPath, |content|)][..0] == [];
  }

  // ---- The binary mark on tree-mode leaves ----

  /** One leaf as the tree shows it: path, size and whether it is marked binary. */
  datatype Shown = Shown(path: string, size: nat, binary: bool)

  /** The leaves of a built tree as shown rows. */
  function Marks(ls: seq<TreeNode>): (r: seq<Shown>)
    ensures |r| == |ls|
    ensures forall k :: 0 <= k < |ls| ==> r[k] == Shown(ls[k].path, ls[k].size, ls[k].isBinary)
  {
    seq(|ls|, k requires 0 <= k < |ls| => Shown(ls[k].path, ls[k].size, ls[k].isBinary))
  }

  /** How each file ought to be shown: its size, and isBinary of its content. */
  function Expected(bs: seq<FileBlob>): (r: seq<Shown>)
    ensures |r| == |bs|
    ensures forall k :: 0 <= k < |bs| ==>
      r[k] == Shown(bs[k].path, |bs[k].content|, Binary(bs[k].content))
  {
    seq(|bs|, k requires 0 <= k < |bs| => Shown(bs[k].path, |bs[k].content|, Binary(bs[k].content)))
  }

  /** Files with contents as the file entries they stand for. */
  function Sizes(bs: seq<FileBlob>): (r: seq<FileEntry>)
    ensures |r| == |bs|
    ensures forall k :: 0 <= k < |bs| ==> r[k] == FileEntry(bs[k].path, |bs[k].content|)
  {
    seq(|bs|, k requires 0 <= k < |bs| => FileEntry(bs[k].path, |bs[k].content|))
  }

  /** The files with contents that isAllowed accepts in tree mode, in order. */
  function AllowedBlobs(cfg: Config, bs: seq<FileBlob>): (r: seq<FileBlob>)
    ensures forall k :: 0 <= k < |r| ==> Allowed(cfg, r[k].path, false)
  {
    if bs == [] then []
    else
      var last := bs[|bs| - 1];
      AllowedBlobs(cfg, bs[..|bs| - 1]) + (if Allowed(cfg, last.path, false) then [last] else [])
  }

  lemma {:induction false} AllowedBlobsAppend(cfg: Config, a: seq<FileBlob>, b: seq<FileBlob>)
    ensures AllowedBlobs(cfg, a + b) == AllowedBlobs(cfg, a) + AllowedBlobs(cfg, b)
    decreases |b|
  {
    if b == [] {
      assert a + b == a;
    } else {
      assert (a + b)[..|a + b| - 1] == a + b[..|b| - 1];
      AllowedBlobsAppend(cfg, a, b[..|b| - 1]);
    }
  }

  lemma MarksAppend(a: seq<TreeNode>, b: seq<TreeNode>)
    ensures Marks(a + b) == Marks(a) + Marks(b)
  {
  }

  lemma ExpectedAppend(a: seq<FileBlob>, b: seq<FileBlob>)
    ensures Expected(a + b) == Expected(a) + Expected(b)
  {
  }

  lemma SizesAppend(a: seq<FileBlob>, b: seq<FileBlob>)
    ensures Sizes(a + b) == Sizes(a) + Sizes(b)
  {
  }

  /**
   * Listing contents and listing sizes walk the tree alike: the allowed files
   * are, position by position, the allowed files with contents.
   */
  lemma {:induction false} AllowedBlobsSizes(cfg: Config, n: Node, path: string)
    ensures Sizes(AllowedBlobs(cfg, Blobs(n, path))) == AllowedIn(cfg, Files(n, path), false)
    decreases n, 1
  {
    match n
    case File(_, content, _) =>
      assert [FileEntry(path, |content|)][..0] == [];
      assert [FileBlob(path, content)][..0] == [];
    case Dir(_, entries, _) =>
      AllowedBlobsOfSizes(cfg, entries, path);
  }

  lemma {:induction false} AllowedBlobsOfSizes(cfg: Config, entries: seq<Node>, path: string)
    ensures Sizes(AllowedBlobs(cfg, BlobsOf(entries, path))) == AllowedIn(cfg, FilesOf(entries, path), false)
    decreases entries, 0
  {
    if entries != [] {
      var pre := entries[..|entries| - 1];
      var last := entries[|entries| - 1];
      var cp := Join(path, last.name);
      AllowedBlobsOfSizes(cfg, pre, path);
      AllowedBlobsSizes(cfg, last, cp);
      AllowedBlobsAppend(cfg, BlobsOf(pre, path), Blobs(last, cp));
      AllowedInAppend(cfg, FilesOf(pre, path), Files(last, cp), false);
      SizesAppend(AllowedBlobs(cfg, BlobsOf(pre, path)), AllowedBlobs(cfg, Blobs(last, cp)));
    }
  }

  /**
   * Below a directory root, the leaves filterTree builds show the allowed files
   * in listing order, each with its size and marked binary exactly when isBinary
   * holds of its content.
   */
  lemma FilteredTreeMarks(cfg: Config, n: Node, path: string)
    ensures n.Dir? && FilteredTree(cfg, n, path).Done? ==>
      Marks(Leaves(FilteredTree(cfg, n, path).value)) == Expected(AllowedBlobs(cfg, Blobs(n, path)))
  {
    if n.Dir? {
      FilteredDirMarks(cfg, n, path);
    }
  }

  lemma {:induction false} FilteredDirMarks(cfg: Config, d: Node, path: string)
    requires d.Dir?
    ensures FilteredDir(cfg, d, path).Success? ==>
      Marks(Leaves(FilteredDir(cfg, d, path).value)) == Expected(AllowedBlobs(cfg, Blobs(d, path)))
    decreases d, 2
  {
    FilteredChildrenMarks(cfg, d.entries, path);
  }

  lemma {:induction false} FilteredChildrenMarks(cfg: Config, entries: seq<Node>, path: string)
    ensures FilteredChildren(cfg, entries, path).Success? ==>
      Marks(LeavesOf(FilteredChildren(cfg, entries, path).value))
        == Expected(AllowedBlobs(cfg, BlobsOf(entries, path)))
    decreases entries, 1
  {
    if entries != [] {
      var pre := entries[..|entries| - 1];
      var last := entries[|entries| - 1];
      var cp := Join(path, last.name);
      FilteredChildrenMarks(cfg, pre, path);
      TreeChildMarks(cfg, last, cp);
      AllowedBlobsAppend(cfg, BlobsOf(pre, path), Blobs(last, cp));
      ExpectedAppend(AllowedBlobs(cfg, BlobsOf(pre, path)), AllowedBlobs(cfg, Blobs(last, cp)));
      var r := FilteredChildren(cfg, pre, path);
      if r.Success? && TreeChild(cfg, last, cp).Success? {
        var c := TreeChild(cfg, last, cp).value;
        if c.Some? {
          LeavesOfSnoc(r.value, c.value);
          MarksAppend(LeavesOf(r.value), Leaves(c.value));
        }
      }
    }
  }

  lemma {:induction false} TreeChildMarks(cfg: Config, e: Node, childPath: string)
    ensures TreeChild(cfg, e, childPath).Success? ==>
      Marks(OptionLeaves(TreeChild(cfg, e, childPath).value)) == Expected(AllowedBlobs(cfg, Blobs(e, childPath)))
    decreases e, 3
  {
    match e
    case Dir(_, _, _) =>
      HasAllowedSound(cfg, e, childPath, false);
      AllowedBlobsSizes(cfg, e, childPath);
      FilteredDirMarks(cfg, e, childPath);
    case File(_, content, _) =>
      assert [FileBlob(childPath, content)][..0] == [];
  }

  /** The k-th leaf of a directory root's tree is the k-th allowed file, marked binary iff its content is. */
  lemma LeafBinaryFlag(cfg: Config, n: Node, path: string, k: nat)
    requires n.Dir? && FilteredTree(cfg, n, path).Done?
    requires k < |Leaves(FilteredTree(cfg, n, path).value)|
    ensures k < |AllowedBlobs(cfg, Blobs(n, path))|
    ensures Leaves(FilteredTree(cfg, n, path).value)[k].path == AllowedBlobs(cfg, Blobs(n, path))[k].path
    ensures Leaves(FilteredTree(cfg, n, path).value)[k].isBinary
      == Binary(AllowedBlobs(cfg, Blobs(n, path))[k].content)
  {
    FilteredTreeMarks(cfg, n, path);
    var leaves := Leaves(FilteredTree(cfg, n, path).value);
    assert Marks(leaves)[k] == Shown(leaves[k].path, leaves[k].size, leaves[k].isBinary);
  }

  /** A root that is a file is kept iff allowed, as a leaf with its size that is never marked binary. */
  lemma FileRootUnmarked(cfg: Config, n: Node, path: string)
    requires n.File?
    ensures FilteredTree(cfg, n, path).Done? <==> Allowed(cfg, path, false)
    ensures FilteredTree(cfg, n, path).Done? ==>
      var t := FilteredTree(cfg, n, path).value;
      !t.isDir && !t.isBinary && t.size == |n.content| && Leaves(t) == [t]
  {
  }

  /**
   * The tree filterTree builds is well formed, and every directory below the
   * root has a child (it was entered only because hasAllowed said true).
   */
  lemma FilteredTreeShape(cfg: Config, n: Node, path: string)
    ensures FilteredTree(cfg, n, path).Done? ==>
      var t := FilteredTree(cfg, n, path).value;
      WellFormed(t) && forall k :: 0 <= k < |t.children| ==> DirsNonEmpty(t.children[k])
  {
    if n.Dir? {
      FilteredDirShape(cfg, n, path);
    }
  }

  lemma {:induction false} FilteredDirShape(cfg: Config, d: Node, path: string)
    requires d.Dir?
    ensures FilteredDir(cfg, d, path).Success? ==>
      var t := FilteredDir(cfg, d, path).value;
      WellFormed(t) && forall k :: 0 <= k < |t.children| ==> DirsNonEmpty(t.children[k])
    decreases d, 2
  {
    FilteredChildrenShape(cfg, d.entries, path);
    if FilteredDir(cfg, d, path).Success? {
      assert FilteredDir(cfg, d, path).value.children == FilteredChildren(cfg, d.entries, path).value;
    }
  }

  lemma {:induction false} FilteredChildrenShape(cfg: Config, entries: seq<Node>, path: string)
    ensures FilteredChildren(cfg, entries, path).Success? ==> AllShaped(FilteredChildren(cfg, entries, path).value)
    decreases entries, 1
  {
    if entries != [] {
      var pre := entries[..|entries| - 1];
      var last := entries[|entries| - 1];
      var cp := Join(path, last.name);
      FilteredChildrenShape(cfg, pre, path);
      TreeChildShape(cfg, last, cp);
      var r := FilteredChildren(cfg, pre, path);
      if r.Success? && TreeChild(cfg, last, cp).Success? {
        var c := TreeChild(cfg, last, cp).value;
        if c.Some? {
          assert FilteredChildren(cfg, entries, path).value == r.value + [c.value];
          ShapedSnoc(r.value, c.value);
        } else {
          assert FilteredChildren(cfg, entries, path).value == r.value;
        }
      }
    }
  }

  lemma {:induction false} TreeChildShape(cfg: Config, e: Node, childPath: string)
    ensures TreeChild(cfg, e, childPath).Success? && TreeChild(cfg, e, childPath).value.Some? ==>
      var c := TreeChild(cfg, e, childPath).value.value;
      WellFormed(c) && DirsNonEmpty(c)
    decreases e, 3
  {
    if e.Dir? {
      HasAllowedSound(cfg, e, childPath, false);
      FilteredDirShape(cfg, e, childPath);
      FilteredDirLeaves(cfg, e, childPath);
    }
  }

  /** On a healthy filesystem filterTree never fails, and a directory is never skipped. */
  lemma FilteredTreeTotal(cfg: Config, n: Node, path: string)
    ensures n.Dir? ==> !FilteredTree(cfg, n, path).Skip?
    ensures Healthy(n) ==> !FilteredTree(cfg, n, path).Fail?
  {
    if n.Dir? && Healthy(n) {
      FilteredDirTotal(cfg, n, path);
    }
  }

  lemma {:induction false} FilteredDirTotal(cfg: Config, d: Node, path: string)
    requires d.Dir? && Healthy(d)
    ensures FilteredDir(cfg, d, path).Success?
    decreases d, 2
  {
    FilteredChildrenTotal(cfg, d.entries, path);
  }

  lemma {:induction false} FilteredChildrenTotal(cfg: Config, entries: seq<Node>, path: string)
    requires forall k :: 0 <= k < |entries| ==> Healthy(entries[k])
    ensures FilteredChildren(cfg, entries, path).Success?
    decreases entries, 1
  {
    if entries != [] {
      var last := entries[|entries| - 1];
      FilteredChildrenTotal(cfg, entries[..|entries| - 1], path);
      if last.Dir? {
        HealthyListable(last);
        HasAllowedTotal(cfg, last, Join(path, last.name), false);
        FilteredDirTotal(cfg, last, Join(path, last.name));
      }
    }
  }

  /** The root directory is returned even when nothing in it is allowed. */
  lemma EmptyRootKept(cfg: Config, name: string, path: string)
    ensures FilteredTree(cfg, Dir(name, [], true), path) == Done(TreeNode(name, path, true, 0, [], false))
  {
    assert FilteredChildren(cfg, [], path) == Success([]);
    assert FilteredDir(cfg, Dir(name, [], true), path) == Success(TreeNode(name, path, true, 0, [], false));
  }

  // ---- filterSourceTree ----

  /** filterSourceTree: allowed files within the threshold; a directory with nothing left is skipped. */
  function FilteredSourceTree(cfg: Config, n: Node, path: string): Outcome<TreeNode>
    decreases n, 2
  {
    match n
    case File(name, content, _) =>
      if Allowed(cfg, path, true) && !ExceedsThreshold(|content|, cfg.sourceThreshold) then
        Done(TreeNode(name, path, false, |content|, [], false))
      else Skip
    case Dir(name, entries, listable) =>
      if !listable then Fail(ListError(path))
      else
        match FilteredSourceChildren(cfg, entries, path)
        case Failure(e) => Fail(e)
        case Success(cs) => if cs == [] then Skip else Done(TreeNode(name, path, true, 0, cs, false))
  }

  function FilteredSourceChildren(cfg: Config, entries: seq<Node>, path: string): Result<seq<TreeNode>, FsError>
    decreases entries, 1
  {
    if entries == [] then Success([])
    else
      var last := entries[|entries| - 1];
      match FilteredSourceChildren(cfg, entries[..|entries| - 1], path)
      case Failure(e) => Failure(e)
      case Success(cs) => AddChild(cs, SourceChild(cfg, last, Join(path, last.name)))
  }

  /** One entry: a skipped subdirectory is dropped; files are never read here. */
  function SourceChild(cfg: Config, e: Node, childPath: string): Result<Option<TreeNode>, FsError>
    decreases e, 3
  {
    match e
    case File(name, content, _) =>
      if !Allowed(cfg, childPath, true) then Success(None)
      else if ExceedsThreshold(|content|, cfg.sourceThreshold) then Success(None)
      else Success(Some(TreeNode(name, childPath, false, |content|, [], false)))
    case Dir(_, _, _) =>
      match HasAllowed(cfg, e, childPath, true)
      case Failure(err) => Failure(err)
      case Success(false) => Success(None)
      case Success(true) =>
        match FilteredSourceTree(cfg, e, childPath)
        case Fail(err) => Failure(err)
        case Skip => Success(None)
        case Done(c) => Success(Some(c))
  }

  lemma {:induction false} SourceChildrenFailurePersists(cfg: Config, entries: seq<Node>, i: nat, path: string)
    requires i <= |entries|
    requires FilteredSourceChildren(cfg, entries[..i], path).Failure?
    ensures FilteredSourceChildren(cfg, entries, path) == FilteredSourceChildren(cfg, entries[..i], path)
    decreases |entries|
  {
    if i == |entries| {
      assert entries[..i] == entries;
    } else {
      var pre := entries[..|entries| - 1];
      assert pre[..i] == entries[..i];
      SourceChildrenFailurePersists(cfg, pre, i, path);
    }
  }

  /** filterSourceTree, walking the entries and appending to the node's children. */
  method FilterSourceTree(cfg: Config, n: Node, path: string) returns (r: Outcome<TreeNode>)
    ensures r == FilteredSourceTree(cfg, n, path)
    decreases n, 2
  {
    if n.File? {
      var ok := IsAllowed(cfg, path, true);
      if !ok || ExceedsThreshold(|n.content|, cfg.sourceThreshold) {
        return Skip;
      }
      return Done(TreeNode(n.name, path, false, |n.content|, [], false));
    }
    if !n.listable {
      return Fail(ListError(path));
    }
    var children := FilterSourceChildren(cfg, n.entries, path);
    if children.Failure? {
      return Fail(children.error);
    }
    if |children.value| == 0 {
      return Skip;
    }
    return Done(TreeNode(n.name, path, true, 0, children.value, false));
  }

  /** The children loop of filterSourceTree. */
  method FilterSourceChildren(cfg: Config, entries: seq<Node>, path: string) returns (r: Result<seq<TreeNode>, FsError>)
    ensures r == FilteredSourceChildren(cfg, entries, path)
    decreases entries, 1
  {
    var children: seq<TreeNode> := [];
    var i := 0;
    while i < |entries|
      invariant 0 <= i <= |entries|
      invariant FilteredSourceChildren(cfg, entries[..i], path) == Success(children)
    {
      var e := entries[i];
      var childPath := Join(path, e.name);
      var c := FilterSourceChild(cfg, e, childPath);
      SourceChildrenStep(cfg, entries, i, path, children, c);
      if c.Failure? {
        SourceChildrenFailurePersists(cfg, entries, i + 1, path);
        return Failure(c.error);
      }
      if c.value.Some? {
        children := children + [c.value.value];
      }
      i := i + 1;
    }
    assert entries[..|entries|] == entries;
    return Success(children);
  }

  /** One more entry of the source children loop. */
  lemma SourceChildrenStep(cfg: Config, entries: seq<Node>, i: nat, path: string,
                           children: seq<TreeNode>, c: Result<Option<TreeNode>, FsError>)
    requires i < |entries| && FilteredSourceChildren(cfg, entries[..i], path) == Success(children)
    requires c == SourceChild(cfg, entries[i], Join(path, entries[i].name))
    ensures FilteredSourceChildren(cfg, entries[..i + 1], path) == AddChild(children, c)
  {
    var upto := entries[..i + 1];
    assert upto[..|upto| - 1] == entries[..i];
    assert upto[|upto| - 1] == entries[i];
  }

  /** One entry of filterSourceTree's loop. */
  method FilterSourceChild(cfg: Config, e: Node, childPath: string) returns (r: Result<Option<TreeNode>, FsError>)
    ensures r == SourceChild(cfg, e, childPath)
    decreases e, 3
  {
    if e.File? {
      var allowed := IsAllowed(cfg, childPath, true);
      if !allowed || ExceedsThreshold(|e.content|, cfg.sourceThreshold) {
        return Success(None);
      }
      return Success(Some(TreeNode(e.name, childPath, false, |e.content|, [], false)));
    }
    var ok := HasAllowed(cfg, e, childPath, true);
    if ok.Failure? {
      return Failure(ok.error);
    }
    if !ok.value {
      return Success(None);
    }
    var c := FilterSourceTree(cfg, e, childPath);
    if c.Fail? {
      return Failure(c.error);
    }
    if c.Skip? {
      return Success(None);
    }
    return Success(Some(c.value));
  }

  lemma AllowedInSingle(cfg: Config, f: FileEntry, isSource: bool)
    ensures AllowedIn(cfg, [f], isSource) == if Allowed(cfg, f.path, isSource) then [f] else []
  {
    assert [f][..0] == [];
  }

  lemma UnderThresholdSingle(t: real, f: FileEntry)
    ensures UnderThreshold(t, [f]) == if ExceedsThreshold(f.size, t) then [] else [f]
  {
    assert [f][..0] == [];
  }

  lemma SourceSelectionSingle(cfg: Config, f: FileEntry)
    ensures SourceSelection(cfg, [f]) ==
      if Allowed(cfg, f.path, true) && !ExceedsThreshold(f.size, cfg.sourceThreshold) then [f] else []
  {
    AllowedInSingle(cfg, f, true);
    if Allowed(cfg, f.path, true) {
      UnderThresholdSingle(cfg.sourceThreshold, f);
    } else {
      assert UnderThreshold(cfg.sourceThreshold, []) == [];
    }
  }

  /**
   * Source mode builds exactly its selection: the leaves are the allowed
   * files not above the threshold, in listing order, and Skip means that
   * selection is empty.
   */
  lemma {:induction false} FilteredSourceTreeLeaves(cfg: Config, n: Node, path: string)
    ensures var r := FilteredSourceTree(cfg, n, path);
      && (r.Done? ==> Entries(Leaves(r.value)) == SourceSelection(cfg, Files(n, path)))
      && (r.Skip? ==> SourceSelection(cfg, Files(n, path)) == [])
    decreases n, 2
  {
    if n.File? {
      SourceFileLeaves(cfg, n, path);
    } else {
      SourceDirLeaves(cfg, n, path);
    }
  }

  lemma SourceFileLeaves(cfg: Config, n: Node, path: string)
    requires n.File?
    ensures var r := FilteredSourceTree(cfg, n, path);
      && (r.Done? ==> Entries(Leaves(r.value)) == SourceSelection(cfg, Files(n, path)))
      && (r.Skip? ==> SourceSelection(cfg, Files(n, path)) == [])
  {
    var f := FileEntry(path, |n.content|);
    var keep := Allowed(cfg, path, true) && !ExceedsThreshold(f.size, cfg.sourceThreshold);
    var leaf := TreeNode(n.name, path, false, f.size, [], false);
    assert FilteredSourceTree(cfg, n, path) == if keep then Done(leaf) else Skip;
    assert SourceSelection(cfg, Files(n, path)) == if keep then [f] else [] by {
      assert Files(n, path) == [f];
      SourceSelectionSingle(cfg, f);
    }
    LeafOutcome(leaf, keep, FilteredSourceTree(cfg, n, path), SourceSelection(cfg, Files(n, path)));
  }

  /** A file either kept as its own single leaf or skipped, with the matching selection. */
  lemma LeafOutcome(leaf: TreeNode, keep: bool, r: Outcome<TreeNode>, sel: seq<FileEntry>)
    requires !leaf.isDir
    requires r == (if keep then Done(leaf) else Skip)
    requires sel == (if keep then [FileEntry(leaf.path, leaf.size)] else [])
    ensures (r.Done? ==> Entries(Leaves(r.value)) == sel) && (r.Skip? ==> sel == [])
  {
    assert Leaves(leaf) == [leaf];
  }

  lemma {:induction false} SourceDirLeaves(cfg: Config, n: Node, path: string)
    requires n.Dir?
    ensures var r := FilteredSourceTree(cfg, n, path);
      && (r.Done? ==> Entries(Leaves(r.value)) == SourceSelection(cfg, Files(n, path)))
      && (r.Skip? ==> SourceSelection(cfg, Files(n, path)) == [])
    decreases n, 1
  {
    FilteredSourceChildrenLeaves(cfg, n.entries, path);
    assert Files(n, path) == FilesOf(n.entries, path);
    var cr := FilteredSourceChildren(cfg, n.entries, path);
    if n.listable && cr.Success? {
      if cr.value == [] {
        assert Entries(LeavesOf(cr.value)) == [];
      } else {
        assert Leaves(TreeNode(n.name, path, true, 0, cr.value, false)) == LeavesOf(cr.value);
      }
    }
  }

  lemma {:induction false} FilteredSourceChildrenLeaves(cfg: Config, entries: seq<Node>, path: string)
    ensures var r := FilteredSourceChildren(cfg, entries, path);
      r.Success? ==> Entries(LeavesOf(r.value)) == SourceSelection(cfg, FilesOf(entries, path))
    decreases entries, 1
  {
    if entries != [] {
      var pre := entries[..|entries| - 1];
      var last := entries[|entries| - 1];
      var cp := Join(path, last.name);
      FilteredSourceChildrenLeaves(cfg, pre, path);
      SourceChildLeaves(cfg, last, cp);
      SourceSelectionAppend(cfg, FilesOf(pre, path), Files(last, cp));
      var r := FilteredSourceChildren(cfg, pre, path);
      if r.Success? && SourceChild(cfg, last, cp).Success? {
        var c := SourceChild(cfg, last, cp).value;
        if c.Some? {
          LeavesOfSnoc(r.value, c.value);
          EntriesAppend(LeavesOf(r.value), Leaves(c.value));
        }
      }
    }
  }

  lemma {:induction false} SourceChildLeaves(cfg: Config, e: Node, childPath: string)
    ensures var r := SourceChild(cfg, e, childPath);
      r.Success? ==> Entries(OptionLeaves(r.value)) == SourceSelection(cfg, Files(e, childPath))
    decreases e, 3
  {
    match e
    case File(_, content, _) =>
      SourceSelectionSingle(cfg, FileEntry(childPath, |content|));
    case Dir(_, _, _) =>
      HasAllowedSound(cfg, e, childPath, true);
      FilteredSourceTreeLeaves(cfg, e, childPath);
  }

  /** The source tree is well formed and every directory in it, the root included, has a child. */
  lemma {:induction false} FilteredSourceTreeShape(cfg: Config, n: Node, path: string)
    ensures var r := FilteredSourceTree(cfg, n, path);
      r.Done? ==> WellFormed(r.value) && DirsNonEmpty(r.value)
    decreases n, 2
  {
    if n.Dir? {
      FilteredSourceChildrenShape(cfg, n.entries, path);
      var r := FilteredSourceTree(cfg, n, path);
      if r.Done? {
        assert r.value.children == FilteredSourceChildren(cfg, n.entries, path).value;
      }
    }
  }

  lemma {:induction false} FilteredSourceChildrenShape(cfg: Config, entries: seq<Node>, path: string)
    ensures var r := FilteredSourceChildren(cfg, entries, path);
      r.Success? ==> AllShaped(r.value)
    decreases entries, 1
  {
    if entries != [] {
      var pre := entries[..|entries| - 1];
      var last := entries[|entries| - 1];
      var cp := Join(path, last.name);
      FilteredSourceChildrenShape(cfg, pre, path);
      SourceChildShape(cfg, last, cp);
      var r := FilteredSourceChildren(cfg, pre, path);
      if r.Success? && SourceChild(cfg, last, cp).Success? {
        var c := SourceChild(cfg, last, cp).value;
        if c.Some? {
          assert FilteredSourceChildren(cfg, entries, path).value == r.value + [c.value];
          ShapedSnoc(r.value, c.value);
        } else {
          assert FilteredSourceChildren(cfg, entries, path).value == r.value;
        }
      }
    }
  }

  lemma {:induction false} SourceChildShape(cfg: Config, e: Node, childPath: string)
    ensures var r := SourceChild(cfg, e, childPath);
      r.Success? && r.value.Some? ==> WellFormed(r.value.value) && DirsNonEmpty(r.value.value)
    decreases e, 3
  {
    if e.Dir? {
      FilteredSourceTreeShape(cfg, e, childPath);
    }
  }

  /** Every leaf of a source tree is allowed in source mode and within the threshold. */
  lemma SourceLeavesSelected(cfg: Config, n: Node, path: string, k: nat)
    requires FilteredSourceTree(cfg, n, path).Done?
    requires k < |Leaves(FilteredSourceTree(cfg, n, path).value)|
    ensures var leaf := Leaves(FilteredSourceTree(cfg, n, path).value)[k];
      Allowed(cfg, leaf.path, true) && !ExceedsThreshold(leaf.size, cfg.sourceThreshold)
  {
    FilteredSourceTreeLeaves(cfg, n, path);
    var sel := SourceSelection(cfg, Files(n, path));
    var leaf := Leaves(FilteredSourceTree(cfg, n, path).value)[k];
    assert sel[k] == FileEntry(leaf.path, leaf.size);
    UnderThresholdSubset(cfg.sourceThreshold, AllowedIn(cfg, Files(n, path), true), k);
  }

  /** What UnderThreshold keeps comes from its input. */
  lemma {:induction false} UnderThresholdSubset(t: real, fs: seq<FileEntry>, k: nat)
    requires k < |UnderThreshold(t, fs)|
    ensures UnderThreshold(t, fs)[k] in fs
    decreases |fs|
  {
    var pre := fs[..|fs| - 1];
    var last := fs[|fs| - 1];
    if k < |UnderThreshold(t, pre)| {
      UnderThresholdSubset(t, pre, k);
      assert UnderThreshold(t, pre)[k] in pre;
    } else {
      assert UnderThreshold(t, fs)[k] == last;
    }
  }

  /** Once every directory can be listed, filterSourceTree never fails: it reads no file. */
  lemma {:induction false} FilteredSourceTreeTotal(cfg: Config, n: Node, path: string)
    requires Listable(n)
    ensures !FilteredSourceTree(cfg, n, path).Fail?
    decreases n, 2
  {
    if n.Dir? {
      FilteredSourceChildrenTotal(cfg, n.entries, path);
    }
  }

  lemma {:induction false} FilteredSourceChildrenTotal(cfg: Config, entries: seq<Node>, path: string)
    requires forall k :: 0 <= k < |entries| ==> Listable(entries[k])
    ensures FilteredSourceChildren(cfg, entries, path).Success?
    decreases entries, 1
  {
    if entries != [] {
      var last := entries[|entries| - 1];
      FilteredSourceChildrenTotal(cfg, entries[..|entries| - 1], path);
      if last.Dir? {
        HasAllowedTotal(cfg, last, Join(path, last.name), true);
        FilteredSourceTreeTotal(cfg, last, Join(path, last.name));
      }
    }
  }

  /** Unlike tree mode, an empty directory is skipped in source mode. */
  lemma EmptyRootSkipped(cfg: Config, name: string, path: string)
    ensures FilteredSourceTree(cfg, Dir(name, [], true), path) == Skip
  {
    assert FilteredSourceChildren(cfg, [], path) == Success([]);
  }
}
