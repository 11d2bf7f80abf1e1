/**
 * The output side: an `io.Writer` that records what is written to it, and
 * the running file counter a renderer updates through an `*int`.
 */
module Output {
  import opened Utf8

  /** One write: text (sent as its UTF-8 encoding) or raw file bytes. */
  datatype Chunk = Text(s: string) | Data(bytes: seq<byte>)

  /** The byte stream that a sequence of writes produces. */
  function Bytes(cs: seq<Chunk>): seq<byte>
    decreases |cs|
  {
    if cs == [] then []
    else
      Bytes(cs[..|cs| - 1])
        + match cs[|cs| - 1] { case Text(s) => EncodeString(s) case Data(b) => b }
  }

  /** The byte stream of consecutive writes is the concatenation of their streams. */
  lemma {:induction false} BytesAppend(a: seq<Chunk>, b: seq<Chunk>)
    ensures Bytes(a + b) == Bytes(a) + Bytes(b)
    decreases |b|
  {
    if b == [] {
      assert a + b == a;
    } else {
      var last := b[|b| - 1];
      assert (a + b)[..|a + b| - 1] == a + b[..|b| - 1];
      BytesAppend(a, b[..|b| - 1]);
    }
  }

  /** `fmt.Fprintln` of each string in turn. */
  function LineChunks(lines: seq<string>): seq<Chunk> {
    if lines == [] then [] else [Text(lines[0] + "\n")] + LineChunks(lines[1..])
  }

  /** One text chunk per line, the line followed by a newline. */
  lemma {:induction false} LineChunksAt(lines: seq<string>)
    ensures |LineChunks(lines)| == |lines|
    ensures forall k :: 0 <= k < |lines| ==> LineChunks(lines)[k] == Text(lines[k] + "\n")
  {
    if lines != [] {
      LineChunksAt(lines[1..]);
    }
  }

  lemma {:induction false} LineChunksAppend(a: seq<string>, b: seq<string>)
    ensures LineChunks(a + b) == LineChunks(a) + LineChunks(b)
  {
    if a == [] {
      assert a + b == b;
    } else {
      assert (a + b)[1..] == a[1..] + b;
      LineChunksAppend(a[1..], b);
    }
  }

  lemma LineChunksSingle(s: string)
    ensures LineChunks([s]) == [Text(s + "\n")]
  {
    assert LineChunks([s][1..]) == [];
  }

  class Writer {
    var chunks: seq<Chunk>

    constructor ()
      ensures chunks == []
    {
      chunks := [];
    }

    /** io.WriteString / fmt.Fprint of a string. */
    method WriteString(s: string)
      modifies this
      ensures chunks == old(chunks) + [Text(s)]
    {
      chunks := chunks + [Text(s)];
    }

    /** w.Write(data). */
    method Write(data: seq<byte>)
      modifies this
      ensures chunks == old(chunks) + [Data(data)]
    {
      chunks := chunks + [Data(data)];
    }

    /** fmt.Fprintln(w) with no operands. */
    method Newline()
      modifies this
      ensures chunks == old(chunks) + [Text("\n")]
    {
      chunks := chunks + [Text("\n")];
    }

    /** fmt.Fprintln(w, s). */
    method Println(s: string)
      modifies this
      ensures chunks == old(chunks) + [Text(s + "\n")]
    {
      chunks := chunks + [Text(s + "\n")];
    }
  }

  /** The `*int` counter that printSourceFiles increments. */
  class Counter {
    var value: nat

    constructor ()
      ensures value == 0
    {
      value := 0;
    }

    method Increment()
      modifies this
      ensures value == old(value) + 1
    {
      value := value + 1;
    }
  }
}
