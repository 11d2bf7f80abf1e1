/**
 * The renderers: `printTree` draws the filtered tree with box-drawing
 * connectors; `printSourceFiles` and `printSourceFilesRaw` write the
 * selected files' contents.
 */
module Render {
  import opened Text
  import opened Utf8
  import opened Output
  import opened Tree
  import opened Helpers

  // ---- printTree ----

  /** The name printed for a child: binary files get a " *" mark. */
  function Label(c: TreeNode): string {
    if !c.isDir && c.isBinary then c.name + " *" else c.name
  }

  function Connector(last: bool): string {
    if last then "└── " else "├── "
  }

  function Indent(last: bool): string {
    if last then "    " else "│   "
  }

  /** The lines printTree(prefix) prints: the root's name only at the top level, then the children. */
  function TreeLines(t: TreeNode, prefix: string): seq<string>
    decreases t, 2
  {
    (if prefix == "" then [t.name] else []) + ChildrenLines(t.children, prefix, |t.children|)
  }

  /** The lines for the first `i` children of a node with children `cs`. */
  function ChildrenLines(cs: seq<TreeNode>, prefix: string, i: nat): seq<string>
    requires i <= |cs|
    decreases cs, 1, i
  {
    if i == 0 then []
    else ChildrenLines(cs, prefix, i - 1) + ChildLines(cs[i - 1], prefix, i == |cs|)
  }

  /** One child: its connector line, then its own subtree one indent deeper. */
  function ChildLines(c: TreeNode, prefix: string, last: bool): seq<string>
    decreases c, 4
  {
    [ChildLine(c, prefix, last)] + Subtree(c, prefix, last)
  }

  function ChildLine(c: TreeNode, prefix: string, last: bool): string {
    prefix + Connector(last) + Label(c)
  }

  /** Only a directory with children is descended into. */
  function Subtree(c: TreeNode, prefix: string, last: bool): seq<string>
    decreases c, 3
  {
    if c.isDir && c.children != [] then TreeLines(c, prefix + Indent(last)) else []
  }

  /** The nodes strictly below `t` in pre-order (files are not descended into). */
  function Below(t: TreeNode): seq<TreeNode>
    decreases t, 2
  {
    BelowOfFirst(t.children, |t.children|)
  }

  /** The first `i` children, each followed by the nodes below it. */
  function BelowOfFirst(cs: seq<TreeNode>, i: nat): seq<TreeNode>
    requires i <= |cs|
    decreases cs, 1, i
  {
    if i == 0 then [] else BelowOfFirst(cs, i - 1) + Subnodes(cs[i - 1])
  }

  /** A child and, for a directory, the nodes below it. */
  function Subnodes(c: TreeNode): seq<TreeNode>
    decreases c, 3
  {
    [c] + (if c.isDir then Below(c) else [])
  }

  /** The chunks printTree(prefix) writes. */
  function TreeOut(t: TreeNode, prefix: string): seq<Chunk>
    decreases t, 2
  {
    (if prefix == "" then [Text(t.name + "\n")] else []) + ChildrenOut(t.children, prefix, |t.children|)
  }

  function ChildrenOut(cs: seq<TreeNode>, prefix: string, i: nat): seq<Chunk>
    requires i <= |cs|
    decreases cs, 1, i
  {
    if i == 0 then []
    else ChildrenOut(cs, prefix, i - 1) + ChildOut(cs[i - 1], prefix, i == |cs|)
  }

  function ChildOut(c: TreeNode, prefix: string, last: bool): seq<Chunk>
    decreases c, 3
  {
    [Text(ChildLine(c, prefix, last) + "\n")]
      + (if c.isDir && c.children != [] then TreeOut(c, prefix + Indent(last)) else [])
  }

  /** printTree, one Fprintln per line. */
  method PrintTree(t: TreeNode, prefix: string, w: Writer)
    modifies w
    ensures w.chunks == old(w.chunks) + TreeOut(t, prefix)
    decreases t, 0
  {
    if prefix == "" {
      w.Println(t.name);
    }
    ghost var top := w.chunks;
    var childCount := |t.children|;
    for i := 0 to childCount
      invariant w.chunks == top + ChildrenOut(t.children, prefix, i)
    {
      var last := i == childCount - 1;
      ghost var done := ChildrenOut(t.children, prefix, i);
      ghost var turn := ChildOut(t.children[i], prefix, last);
      PrintChild(t.children[i], prefix, last, w);
      assert w.chunks == (top + done) + turn;
      assert ChildrenOut(t.children, prefix, i + 1) == done + turn;
      assert (top + done) + turn == top + (done + turn);
    }
  }

  /** One turn of printTree's loop: the child's line, then its subtree when it is a non-empty directory. */
  method PrintChild(child: TreeNode, prefix: string, last: bool, w: Writer)
    modifies w
    ensures w.chunks == old(w.chunks) + ChildOut(child, prefix, last)
    decreases child, 1
  {
    var childName := child.name;
    if !child.isDir && child.isBinary {
      childName := childName + " *";
    }
    var connector := "├── ";
    var newPrefix := prefix + "│   ";
    if last {
      connector := "└── ";
      newPrefix := prefix + "    ";
    }
    var line := prefix + connector + childName;
    assert line == ChildLine(child, prefix, last);
    w.Println(line);
    if child.isDir && |child.children| > 0 {
      PrintTree(child, newPrefix, w);
    }
  }

  /** What printTree writes is its lines, each through one Fprintln. */
  lemma {:induction false} TreeOutLines(t: TreeNode, prefix: string)
    ensures TreeOut(t, prefix) == LineChunks(TreeLines(t, prefix))
    decreases t, 2
  {
    var head: seq<string> := if prefix == "" then [t.name] else [];
    ChildrenOutLines(t.children, prefix, |t.children|);
    LineChunksAppend(head, ChildrenLines(t.children, prefix, |t.children|));
    if prefix == "" {
      LineChunksSingle(t.name);
    }
  }

  lemma {:induction false} ChildrenOutLines(cs: seq<TreeNode>, prefix: string, i: nat)
    requires i <= |cs|
    ensures ChildrenOut(cs, prefix, i) == LineChunks(ChildrenLines(cs, prefix, i))
    decreases cs, 1, i
  {
    if i > 0 {
      var c := cs[i - 1];
      var last := i == |cs|;
      var before := ChildrenLines(cs, prefix, i - 1);
      var turn := ChildLines(c, prefix, last);
      ChildrenOutLines(cs, prefix, i - 1);
      ChildOutLines(c, prefix, last);
      LineChunksAppend(before, turn);
      assert ChildrenLines(cs, prefix, i) == before + turn;
      assert ChildrenOut(cs, prefix, i) == ChildrenOut(cs, prefix, i - 1) + ChildOut(c, prefix, last);
    }
  }

  lemma {:induction false} ChildOutLines(c: TreeNode, prefix: string, last: bool)
    ensures ChildOut(c, prefix, last) == LineChunks(ChildLines(c, prefix, last))
    decreases c, 4
  {
    var line := ChildLine(c, prefix, last);
    LineChunksSingle(line);
    LineChunksAppend([line], Subtree(c, prefix, last));
    if c.isDir && c.children != [] {
      TreeOutLines(c, prefix + Indent(last));
    }
  }

  /** Each line starts with the prefix and ends with the label of its node. */
  predicate Labelled(lines: seq<string>, nodes: seq<TreeNode>, prefix: string) {
    |lines| == |nodes|
    && forall k :: 0 <= k < |lines| ==> HasPrefix(lines[k], prefix) && HasSuffix(lines[k], Label(nodes[k]))
  }

  lemma LabelledAppend(a: seq<string>, na: seq<TreeNode>, b: seq<string>, nb: seq<TreeNode>, prefix: string)
    requires Labelled(a, na, prefix) && Labelled(b, nb, prefix)
    ensures Labelled(a + b, na + nb, prefix)
  {
    forall k | 0 <= k < |a + b|
      ensures HasPrefix((a + b)[k], prefix) && HasSuffix((a + b)[k], Label((na + nb)[k]))
    {
      if k < |a| {
        assert (a + b)[k] == a[k] && (na + nb)[k] == na[k];
      } else {
        assert (a + b)[k] == b[k - |a|] && (na + nb)[k] == nb[k - |a|];
      }
    }
  }

  lemma LabelledWeaken(lines: seq<string>, nodes: seq<TreeNode>, prefix: string, more: string)
    requires Labelled(lines, nodes, prefix + more)
    ensures Labelled(lines, nodes, prefix)
  {
    forall k | 0 <= k < |lines|
      ensures HasPrefix(lines[k], prefix)
    {
      assert lines[k][..|prefix|] == (prefix + more)[..|prefix|];
    }
  }

  lemma {:induction false} TreeLinesLabelled(t: TreeNode, prefix: string)
    requires prefix != ""
    ensures Labelled(TreeLines(t, prefix), Below(t), prefix)
    decreases t, 2
  {
    ChildrenLinesLabelled(t.children, prefix, |t.children|);
    assert TreeLines(t, prefix) == ChildrenLines(t.children, prefix, |t.children|);
  }

  lemma {:induction false} ChildrenLinesLabelled(cs: seq<TreeNode>, prefix: string, i: nat)
    requires i <= |cs|
    ensures Labelled(ChildrenLines(cs, prefix, i), BelowOfFirst(cs, i), prefix)
    decreases cs, 1, i
  {
    if i > 0 {
      var c := cs[i - 1];
      ChildrenLinesLabelled(cs, prefix, i - 1);
      ChildLinesLabelled(c, prefix, i == |cs|);
      LabelledAppend(ChildrenLines(cs, prefix, i - 1), BelowOfFirst(cs, i - 1),
        ChildLines(c, prefix, i == |cs|), Subnodes(c), prefix);
    }
  }

  lemma {:induction false} ChildLinesLabelled(c: TreeNode, prefix: string, last: bool)
    ensures Labelled(ChildLines(c, prefix, last), Subnodes(c), prefix)
    decreases c, 4
  {
    var line := ChildLine(c, prefix, last);
    assert line[..|prefix|] == prefix;
    assert line[|line| - |Label(c)|..] == Label(c);
    assert Labelled([line], [c], prefix);
    if c.isDir && c.children != [] {
      var deeper := prefix + Indent(last);
      TreeLinesLabelled(c, deeper);
      LabelledWeaken(TreeLines(c, deeper), Below(c), prefix, Indent(last));
      LabelledAppend([line], [c], TreeLines(c, deeper), Below(c), prefix);
    } else {
      assert c.isDir ==> Below(c) == [];
      assert Subnodes(c) == [c];
      assert ChildLines(c, prefix, last) == [line];
    }
  }

  /**
   * printTree("") prints the root's name, then exactly one line per node
   * below the root, in pre-order, each ending with that node's label.
   */
  lemma TreeOutline(t: TreeNode)
    ensures |TreeLines(t, "")| == 1 + |Below(t)|
    ensures TreeLines(t, "")[0] == t.name
    ensures forall k :: 0 <= k < |Below(t)| ==> HasSuffix(TreeLines(t, "")[k + 1], Label(Below(t)[k]))
  {
    ChildrenLinesLabelled(t.children, "", |t.children|);
    var rest := ChildrenLines(t.children, "", |t.children|);
    assert TreeLines(t, "") == [t.name] + rest;
    forall k | 0 <= k < |Below(t)|
      ensures HasSuffix(TreeLines(t, "")[k + 1], Label(Below(t)[k]))
    {
      assert TreeLines(t, "")[k + 1] == rest[k];
    }
  }

  /** Only a file flagged binary is marked. */
  lemma LabelMark(c: TreeNode)
    ensures HasSuffix(Label(c), " *") <==> (!c.isDir && c.isBinary) || HasSuffix(c.name, " *")
    ensures !c.isDir && c.isBinary ==> Label(c)[..|c.name|] == c.name
  {
    if !c.isDir && c.isBinary {
      var l := c.name + " *";
      assert l[|l| - 2..] == " *";
    }
  }

  /**
   * A small project: connectors, the deeper indent under a non-last child,
   * and the binary mark.
   */
  lemma TreeLinesExample()
    ensures var a := TreeNode("a.go", "src/a.go", false, 3, [], false);
      var src := TreeNode("src", "src", true, 0, [a], false);
      var bin := TreeNode("b.bin", "b.bin", false, 4, [], true);
      TreeLines(TreeNode("proj", ".", true, 0, [src, bin], false), "")
        == ["proj", "├── src", "│   └── a.go", "└── b.bin *"]
  {
    var a := TreeNode("a.go", "src/a.go", false, 3, [], false);
    var src := TreeNode("src", "src", true, 0, [a], false);
    var bin := TreeNode("b.bin", "b.bin", false, 4, [], true);
    assert Label(a) == "a.go" && Label(src) == "src" && Label(bin) == "b.bin *";
    assert ChildLine(a, "│   ", true) == "│   └── a.go";
    assert Subtree(a, "│   ", true) == [];
    assert ChildLines(a, "│   ", true) == ["│   └── a.go"];
    assert ChildrenLines([a], "│   ", 0) == [];
    assert ChildrenLines([a], "│   ", 1) == ["│   └── a.go"];
    assert TreeLines(src, "│   ") == ["│   └── a.go"];
    assert ChildLine(src, "", false) == "├── src";
    assert "" + Indent(false) == "│   ";
    assert Subtree(src, "", false) == TreeLines(src, "│   ");
    assert ChildLines(src, "", false) == ["├── src", "│   └── a.go"];
    assert ChildLine(bin, "", true) == "└── b.bin *";
    assert Subtree(bin, "", true) == [];
    assert ChildLines(bin, "", true) == ["└── b.bin *"];
    assert ChildrenLines([src, bin], "", 0) == [];
    assert ChildrenLines([src, bin], "", 1) == ["├── src", "│   └── a.go"];
    assert ChildrenLines([src, bin], "", 2) == ["├── src", "│   └── a.go", "└── b.bin *"];
  }

  // ---- printSourceFiles and printSourceFilesRaw ----

  /**
   * What one file leaf contributes, given the contents that reading returns
   * (a path absent from `files` fails to read): nothing when the read fails
   * or the data is binary, else its header, its bytes and a newline.
   */
  function FileChunks(leaf: TreeNode, header: string, files: map<string, seq<byte>>): seq<Chunk> {
    if leaf.path !in files || Binary(files[leaf.path]) then []
    else [Text(header), Data(files[leaf.path]), Text("\n")]
  }

  /** The same without the header, as printSourceFilesRaw writes it. */
  function RawFileChunks(leaf: TreeNode, files: map<string, seq<byte>>): seq<Chunk> {
    if leaf.path !in files || Binary(files[leaf.path]) then []
    else [Data(files[leaf.path]), Text("\n")]
  }

  /**
   * What printSourceFiles writes for `t` when the file counter stands at
   * `start`: a file bumps the counter and is printed under the new number.
   */
  function SourceOut(t: TreeNode, start: nat, totalFiles: nat, files: map<string, seq<byte>>): seq<Chunk>
    decreases t, 1
  {
    if !t.isDir then FileChunks(t, Header(t, start + 1, totalFiles), files)
    else SourceChildrenOut(t.children, |t.children|, start, totalFiles, files)
  }

  /** The first `i` children in turn, the counter advanced past the leaves before each. */
  function SourceChildrenOut(cs: seq<TreeNode>, i: nat, start: nat, totalFiles: nat,
                             files: map<string, seq<byte>>): seq<Chunk>
    requires i <= |cs|
    decreases cs, 0, i
  {
    if i == 0 then []
    else
      SourceChildrenOut(cs, i - 1, start, totalFiles, files)
        + SourceOut(cs[i - 1], start + |LeavesOfFirst(cs, i - 1)|, totalFiles, files)
  }

  /** What printSourceFilesRaw writes for `t`. */
  function RawOut(t: TreeNode, files: map<string, seq<byte>>): seq<Chunk>
    decreases t, 1
  {
    if !t.isDir then RawFileChunks(t, files)
    else RawChildrenOut(t.children, |t.children|, files)
  }

  function RawChildrenOut(cs: seq<TreeNode>, i: nat, files: map<string, seq<byte>>): seq<Chunk>
    requires i <= |cs|
    decreases cs, 0, i
  {
    if i == 0 then [] else RawChildrenOut(cs, i - 1, files) + RawOut(cs[i - 1], files)
  }

  /** One file of printSourceFiles, after the counter was bumped to `fileNum`. */
  method PrintFile(leaf: TreeNode, fileNum: nat, totalFiles: nat, files: map<string, seq<byte>>, w: Writer)
    requires fileNum < Int64Limit && totalFiles < Int64Limit
    modifies w
    ensures w.chunks == old(w.chunks) + FileChunks(leaf, Header(leaf, fileNum, totalFiles), files)
  {
    if leaf.path !in files {
      return;
    }
    var data := files[leaf.path];
    var binary := IsBinary(data);
    if binary {
      return;
    }
    var header := FileHeader(leaf, fileNum, totalFiles);
    w.WriteString(header);
    w.Write(data);
    w.Newline();
  }

  /**
   * printSourceFiles: every file leaf bumps the counter before it is read,
   * so the counter grows by the number of leaves, even when a file emits
   * nothing.
   */
  method PrintSourceFiles(t: TreeNode, totalFiles: nat, files: map<string, seq<byte>>, w: Writer, counter: Counter)
    requires counter.value + |Leaves(t)| < Int64Limit && totalFiles < Int64Limit
    modifies w, counter
    ensures counter.value == old(counter.value) + |Leaves(t)|
    ensures w.chunks == old(w.chunks) + SourceOut(t, old(counter.value), totalFiles, files)
    decreases t
  {
    if !t.isDir {
      counter.Increment();
      PrintFile(t, counter.value, totalFiles, files, w);
      return;
    }
    DirLeaves(t);
    ghost var start := counter.value;
    ghost var top := w.chunks;
    for i := 0 to |t.children|
      invariant counter.value == start + |LeavesOfFirst(t.children, i)|
      invariant w.chunks == top + SourceChildrenOut(t.children, i, start, totalFiles, files)
    {
      LeavesOfFirstGrow(t.children, i + 1);
      ghost var done := SourceChildrenOut(t.children, i, start, totalFiles, files);
      ghost var turn := SourceOut(t.children[i], counter.value, totalFiles, files);
      PrintSourceFiles(t.children[i], totalFiles, files, w, counter);
      assert w.chunks == (top + done) + turn;
      assert SourceChildrenOut(t.children, i + 1, start, totalFiles, files) == done + turn;
      assert (top + done) + turn == top + (done + turn);
      assert LeavesOfFirst(t.children, i + 1) == LeavesOfFirst(t.children, i) + Leaves(t.children[i]);
    }
  }

  /** One file of printSourceFilesRaw. */
  method PrintFileRaw(leaf: TreeNode, files: map<string, seq<byte>>, w: Writer)
    modifies w
    ensures w.chunks == old(w.chunks) + RawFileChunks(leaf, files)
  {
    if leaf.path !in files {
      return;
    }
    var data := files[leaf.path];
    var binary := IsBinary(data);
    if binary {
      return;
    }
    w.Write(data);
    w.Newline();
  }

  /** printSourceFilesRaw: the same walk without headers or a counter. */
  method PrintSourceFilesRaw(t: TreeNode, files: map<string, seq<byte>>, w: Writer)
    modifies w
    ensures w.chunks == old(w.chunks) + RawOut(t, files)
    decreases t
  {
    if !t.isDir {
      PrintFileRaw(t, files, w);
      return;
    }
    ghost var top := w.chunks;
    for i := 0 to |t.children|
      invariant w.chunks == top + RawChildrenOut(t.children, i, files)
    {
      ghost var done := RawChildrenOut(t.children, i, files);
      ghost var turn := RawOut(t.children[i], files);
      PrintSourceFilesRaw(t.children[i], files, w);
      assert w.chunks == (top + done) + turn;
      assert RawChildrenOut(t.children, i + 1, files) == done + turn;
      assert (top + done) + turn == top + (done + turn);
    }
  }

  // ---- the walk as a sequence of numbered leaves ----

  /**
   * What a pre-order walk writes when each file leaf writes emit(leaf, n),
   * n counting the leaves from start + 1.
   */
  function Walk(t: TreeNode, start: nat, emit: (TreeNode, nat) -> seq<Chunk>): seq<Chunk>
    decreases t, 1
  {
    if !t.isDir then emit(t, start + 1)
    else WalkChildren(t.children, |t.children|, start, emit)
  }

  function WalkChildren(cs: seq<TreeNode>, i: nat, start: nat, emit: (TreeNode, nat) -> seq<Chunk>): seq<Chunk>
    requires i <= |cs|
    decreases cs, 0, i
  {
    if i == 0 then []
    else WalkChildren(cs, i - 1, start, emit) + Walk(cs[i - 1], start + |LeavesOfFirst(cs, i - 1)|, emit)
  }

  /** The leaves one after another, the k-th (from 0) writing emit(leaf, start + k + 1). */
  function Numbered(leaves: seq<TreeNode>, start: nat, emit: (TreeNode, nat) -> seq<Chunk>): seq<Chunk> {
    if leaves == [] then []
    else Numbered(leaves[..|leaves| - 1], start, emit) + emit(leaves[|leaves| - 1], start + |leaves|)
  }

  /** printSourceFiles' leaf output for a fixed total and file contents. */
  function SourceEmit(totalFiles: nat, files: map<string, seq<byte>>): (TreeNode, nat) -> seq<Chunk> {
    (leaf: TreeNode, fileNum: nat) => FileChunks(leaf, Header(leaf, fileNum, totalFiles), files)
  }

  /** printSourceFilesRaw's leaf output: the number plays no part. */
  function RawEmit(files: map<string, seq<byte>>): (TreeNode, nat) -> seq<Chunk> {
    (leaf: TreeNode, fileNum: nat) => RawFileChunks(leaf, files)
  }

  lemma {:induction false} NumberedAppend(a: seq<TreeNode>, b: seq<TreeNode>, start: nat,
                                          emit: (TreeNode, nat) -> seq<Chunk>)
    ensures Numbered(a + b, start, emit) == Numbered(a, start, emit) + Numbered(b, start + |a|, emit)
    decreases |b|
  {
    if b == [] {
      assert a + b == a;
    } else {
      assert (a + b)[..|a + b| - 1] == a + b[..|b| - 1];
      NumberedAppend(a, b[..|b| - 1], start, emit);
    }
  }

  /** The walk writes the tree's leaves in pre-order, numbered one after another. */
  lemma {:induction false} WalkNumbered(t: TreeNode, start: nat, emit: (TreeNode, nat) -> seq<Chunk>)
    ensures Walk(t, start, emit) == Numbered(Leaves(t), start, emit)
    decreases t, 1
  {
    if !t.isDir {
      assert Leaves(t) == [t] && [t][..0] == [];
    } else {
      WalkChildrenNumbered(t.children, |t.children|, start, emit);
      DirLeaves(t);
    }
  }

  lemma {:induction false} WalkChildrenNumbered(cs: seq<TreeNode>, i: nat, start: nat,
                                                emit: (TreeNode, nat) -> seq<Chunk>)
    requires i <= |cs|
    ensures WalkChildren(cs, i, start, emit) == Numbered(LeavesOfFirst(cs, i), start, emit)
    decreases cs, 0, i
  {
    if i > 0 {
      var pre := LeavesOfFirst(cs, i - 1);
      var x := WalkChildren(cs, i - 1, start, emit);
      var y := Walk(cs[i - 1], start + |pre|, emit);
      assert WalkChildren(cs, i, start, emit) == x + y;
      assert LeavesOfFirst(cs, i) == pre + Leaves(cs[i - 1]);
      WalkChildrenNumbered(cs, i - 1, start, emit);
      WalkNumbered(cs[i - 1], start + |pre|, emit);
      NumberedSnoc(x, y, pre, Leaves(cs[i - 1]), start, emit);
    }
  }

  /** NumberedAppend with the two parts given by name. */
  lemma NumberedSnoc(x: seq<Chunk>, y: seq<Chunk>, a: seq<TreeNode>, b: seq<TreeNode>, start: nat,
                     emit: (TreeNode, nat) -> seq<Chunk>)
    requires x == Numbered(a, start, emit) && y == Numbered(b, start + |a|, emit)
    ensures x + y == Numbered(a + b, start, emit)
  {
    NumberedAppend(a, b, start, emit);
  }

  lemma {:induction false} SourceOutIsWalk(t: TreeNode, start: nat, totalFiles: nat, files: map<string, seq<byte>>)
    ensures SourceOut(t, start, totalFiles, files) == Walk(t, start, SourceEmit(totalFiles, files))
    decreases t, 1
  {
    if t.isDir {
      SourceChildrenOutIsWalk(t.children, |t.children|, start, totalFiles, files);
    }
  }

  lemma {:induction false} SourceChildrenOutIsWalk(cs: seq<TreeNode>, i: nat, start: nat, totalFiles: nat,
                                                   files: map<string, seq<byte>>)
    requires i <= |cs|
    ensures SourceChildrenOut(cs, i, start, totalFiles, files) == WalkChildren(cs, i, start, SourceEmit(totalFiles, files))
    decreases cs, 0, i
  {
    if i > 0 {
      var emit := SourceEmit(totalFiles, files);
      var off := start + |LeavesOfFirst(cs, i - 1)|;
      assert SourceChildrenOut(cs, i, start, totalFiles, files)
        == SourceChildrenOut(cs, i - 1, start, totalFiles, files) + SourceOut(cs[i - 1], off, totalFiles, files);
      assert WalkChildren(cs, i, start, emit) == WalkChildren(cs, i - 1, start, emit) + Walk(cs[i - 1], off, emit);
      SourceChildrenOutIsWalk(cs, i - 1, start, totalFiles, files);
      SourceOutIsWalk(cs[i - 1], off, totalFiles, files);
    }
  }

  lemma {:induction false} RawOutIsWalk(t: TreeNode, start: nat, files: map<string, seq<byte>>)
    ensures RawOut(t, files) == Walk(t, start, RawEmit(files))
    decreases t, 1
  {
    if t.isDir {
      RawChildrenOutIsWalk(t.children, |t.children|, start, files);
    }
  }

  lemma {:induction false} RawChildrenOutIsWalk(cs: seq<TreeNode>, i: nat, start: nat, files: map<string, seq<byte>>)
    requires i <= |cs|
    ensures RawChildrenOut(cs, i, files) == WalkChildren(cs, i, start, RawEmit(files))
    decreases cs, 0, i
  {
    if i > 0 {
      var emit := RawEmit(files);
      var off := start + |LeavesOfFirst(cs, i - 1)|;
      assert RawChildrenOut(cs, i, files) == RawChildrenOut(cs, i - 1, files) + RawOut(cs[i - 1], files);
      assert WalkChildren(cs, i, start, emit) == WalkChildren(cs, i - 1, start, emit) + Walk(cs[i - 1], off, emit);
      RawChildrenOutIsWalk(cs, i - 1, start, files);
      RawOutIsWalk(cs[i - 1], off, files);
    }
  }

  /**
   * printSourceFiles writes the tree's file leaves in pre-order, the k-th
   * (from 0) under the header numbered start + k + 1.
   */
  lemma SourceOutLeaves(t: TreeNode, start: nat, totalFiles: nat, files: map<string, seq<byte>>)
    ensures SourceOut(t, start, totalFiles, files) == Numbered(Leaves(t), start, SourceEmit(totalFiles, files))
  {
    SourceOutIsWalk(t, start, totalFiles, files);
    WalkNumbered(t, start, SourceEmit(totalFiles, files));
  }

  /** printSourceFilesRaw writes the same leaves in the same order. */
  lemma RawOutLeaves(t: TreeNode, files: map<string, seq<byte>>)
    ensures RawOut(t, files) == Numbered(Leaves(t), 0, RawEmit(files))
  {
    RawOutIsWalk(t, 0, files);
    WalkNumbered(t, 0, RawEmit(files));
  }

  /**
   * The k-th leaf (from 0), counting from `start`, is written with the
   * header numbered start + k + 1, between the leaves before and after it.
   */
  lemma HeaderNumbering(leaves: seq<TreeNode>, start: nat, totalFiles: nat, files: map<string, seq<byte>>, k: nat)
    requires k < |leaves|
    ensures var emit := SourceEmit(totalFiles, files);
      Numbered(leaves, start, emit)
      == Numbered(leaves[..k], start, emit)
         + FileChunks(leaves[k], Header(leaves[k], start + k + 1, totalFiles), files)
         + Numbered(leaves[k + 1..], start + k + 1, emit)
  {
    var emit := SourceEmit(totalFiles, files);
    SourceEmitAt(totalFiles, files, leaves[k], start + k + 1);
    NumberedSplit(leaves, start, emit, k, FileChunks(leaves[k], Header(leaves[k], start + k + 1, totalFiles), files));
  }

  /** NumberedAt with the leaf's own output given by value. */
  lemma NumberedSplit(leaves: seq<TreeNode>, start: nat, emit: (TreeNode, nat) -> seq<Chunk>, k: nat, out: seq<Chunk>)
    requires k < |leaves| && emit(leaves[k], start + k + 1) == out
    ensures Numbered(leaves, start, emit)
      == Numbered(leaves[..k], start, emit) + out + Numbered(leaves[k + 1..], start + k + 1, emit)
  {
    NumberedAt(leaves, start, emit, k);
  }

  lemma SourceEmitAt(totalFiles: nat, files: map<string, seq<byte>>, leaf: TreeNode, fileNum: nat)
    ensures SourceEmit(totalFiles, files)(leaf, fileNum) == FileChunks(leaf, Header(leaf, fileNum, totalFiles), files)
  {
  }

  lemma NumberedAt(leaves: seq<TreeNode>, start: nat, emit: (TreeNode, nat) -> seq<Chunk>, k: nat)
    requires k < |leaves|
    ensures Numbered(leaves, start, emit)
      == Numbered(leaves[..k], start, emit) + emit(leaves[k], start + k + 1) + Numbered(leaves[k + 1..], start + k + 1, emit)
  {
    var one := [leaves[k]];
    assert leaves == leaves[..k] + (one + leaves[k + 1..]);
    NumberedAppend(leaves[..k], one + leaves[k + 1..], start, emit);
    NumberedAppend(one, leaves[k + 1..], start + k, emit);
    assert one[..0] == [];
    assert Numbered(one, start + k, emit) == emit(leaves[k], start + k + 1);
  }

  /** The contents of the leaves that are read and are not binary, in order. */
  function Emitted(leaves: seq<TreeNode>, files: map<string, seq<byte>>): seq<seq<byte>> {
    if leaves == [] then []
    else
      var last := leaves[|leaves| - 1];
      Emitted(leaves[..|leaves| - 1], files)
        + (if last.path !in files || Binary(files[last.path]) then [] else [files[last.path]])
  }

  /** The raw file bytes among the writes, in order. */
  function DataOf(cs: seq<Chunk>): seq<seq<byte>> {
    if cs == [] then []
    else DataOf(cs[..|cs| - 1]) + match cs[|cs| - 1] { case Data(b) => [b] case Text(_) => [] }
  }

  lemma {:induction false} DataOfAppend(a: seq<Chunk>, b: seq<Chunk>)
    ensures DataOf(a + b) == DataOf(a) + DataOf(b)
    decreases |b|
  {
    if b == [] {
      assert a + b == a;
    } else {
      assert (a + b)[..|a + b| - 1] == a + b[..|b| - 1];
      DataOfAppend(a, b[..|b| - 1]);
    }
  }

  lemma DataOfFile(h: string, d: seq<byte>)
    ensures DataOf([Text(h), Data(d), Text("\n")]) == [d]
    ensures DataOf([Data(d), Text("\n")]) == [d]
  {
    var one := [Text(h)];
    assert one[..0] == [];
    assert DataOf(one) == [];
    var onetwo := [Text(h), Data(d)];
    assert onetwo[..1] == one;
    assert DataOf(onetwo) == [d];
    var three := [Text(h), Data(d), Text("\n")];
    assert three[..2] == onetwo;
    var single := [Data(d)];
    assert single[..0] == [];
    assert DataOf(single) == [d];
    var two := [Data(d), Text("\n")];
    assert two[..1] == single;
  }

  /** A leaf's data from either renderer: its contents when read and not binary. */
  lemma LeafData(leaf: TreeNode, header: string, files: map<string, seq<byte>>)
    ensures DataOf(FileChunks(leaf, header, files)) == DataOf(RawFileChunks(leaf, files))
      == (if leaf.path !in files || Binary(files[leaf.path]) then [] else [files[leaf.path]])
  {
    if leaf.path in files && !Binary(files[leaf.path]) {
      DataOfFile(header, files[leaf.path]);
    }
  }

  /**
   * Both renderers write exactly the contents of the files that are read
   * and are not binary, in leaf order; the headers add no data.
   */
  lemma {:induction false} NumberedData(leaves: seq<TreeNode>, start: nat, totalFiles: nat,
                                        files: map<string, seq<byte>>)
    ensures DataOf(Numbered(leaves, start, SourceEmit(totalFiles, files))) == Emitted(leaves, files)
    ensures DataOf(Numbered(leaves, start, RawEmit(files))) == Emitted(leaves, files)
    decreases |leaves|
  {
    if leaves != [] {
      var n := |leaves| - 1;
      var last := leaves[n];
      var header := Header(last, start + |leaves|, totalFiles);
      NumberedData(leaves[..n], start, totalFiles, files);
      assert SourceEmit(totalFiles, files)(last, start + |leaves|) == FileChunks(last, header, files);
      assert RawEmit(files)(last, start + |leaves|) == RawFileChunks(last, files);
      DataOfAppend(Numbered(leaves[..n], start, SourceEmit(totalFiles, files)), FileChunks(last, header, files));
      DataOfAppend(Numbered(leaves[..n], start, RawEmit(files)), RawFileChunks(last, files));
      LeafData(last, header, files);
    }
  }

  /** So the full and the raw renderer of a tree write the same file contents. */
  lemma RenderersAgree(t: TreeNode, start: nat, totalFiles: nat, files: map<string, seq<byte>>)
    ensures DataOf(SourceOut(t, start, totalFiles, files)) == Emitted(Leaves(t), files)
    ensures DataOf(RawOut(t, files)) == Emitted(Leaves(t), files)
  {
    SourceOutLeaves(t, start, totalFiles, files);
    RawOutLeaves(t, files);
    NumberedData(Leaves(t), start, totalFiles, files);
    NumberedData(Leaves(t), 0, totalFiles, files);
  }
}
