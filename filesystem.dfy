/**
 * The filesystem the builders walk: a finite tree of named files and
 * directories, each of which may fail to be read or listed.
 */
module FileSystem {
  import opened Utf8
  import opened Text

  /**
   * A file's size is the length of its content; `readable` is false when
   * reading it fails, `listable` false when listing the directory fails.
   * Entries are in the order the listing returns them.
   */
  datatype Node =
    | File(name: string, content: seq<byte>, readable: bool)
    | Dir(name: string, entries: seq<Node>, listable: bool)

  datatype FsError = ListError(path: string) | ReadError(path: string)

  /** A file below a node with its content, as a read returns it. */
  datatype FileBlob = FileBlob(path: string, content: seq<byte>)

  /** A file leaf as the builders see it: its path and its size. */
  datatype FileEntry = FileEntry(path: string, size: nat)

  /** Every file can be read and every directory listed. */
  predicate Healthy(n: Node)
    decreases n
  {
    match n
    case File(_, _, readable) => readable
    case Dir(_, entries, listable) => listable && forall k :: 0 <= k < |entries| ==> Healthy(entries[k])
  }

  /** Every directory can be listed; files may still be unreadable. */
  predicate Listable(n: Node)
    decreases n
  {
    match n
    case File(_, _, _) => true
    case Dir(_, entries, listable) => listable && forall k :: 0 <= k < |entries| ==> Listable(entries[k])
  }

  /** A healthy tree is in particular listable. */
  lemma {:induction false} HealthyListable(n: Node)
    requires Healthy(n)
    ensures Listable(n)
    decreases n
  {
    match n
    case File(_, _, _) =>
    case Dir(_, entries, _) =>
      forall k | 0 <= k < |entries|
        ensures Listable(entries[k])
      {
        HealthyListable(entries[k]);
      }
  }

  /** The files below `n` (or `n` itself), in listing order, with the paths the walk gives them. */
  function Files(n: Node, path: string): seq<FileEntry>
    decreases n, 1
  {
    match n
    case File(_, content, _) => [FileEntry(path, |content|)]
    case Dir(_, entries, _) => FilesOf(entries, path)
  }

  /** The files below the entries of the directory at `path`. */
  function FilesOf(entries: seq<Node>, path: string): seq<FileEntry>
    decreases entries, 0
  {
    if entries == [] then []
    else
      var last := entries[|entries| - 1];
      FilesOf(entries[..|entries| - 1], path) + Files(last, Join(path, last.name))
  }

  /** The same walk as Files, keeping each file's content. */
  function Blobs(n: Node, path: string): seq<FileBlob>
    decreases n, 1
  {
    match n
    case File(_, content, _) => [FileBlob(path, content)]
    case Dir(_, entries, _) => BlobsOf(entries, path)
  }

  function BlobsOf(entries: seq<Node>, path: string): seq<FileBlob>
    decreases entries, 0
  {
    if entries == [] then []
    else
      var last := entries[|entries| - 1];
      BlobsOf(entries[..|entries| - 1], path) + Blobs(last, Join(path, last.name))
  }
}
