/** The audio side of the pipeline: the FIFO queue the capture callback
    fills, the drain that empties it after recording, the concatenation of
    the drained chunks into one buffer, and the buffer's duration. */
module Audio {

  /** One audio sample; the float32 representation is abstracted to a real. */
  type Sample = real
  /** The samples delivered by one capture callback, in order. */
  type Chunk = seq<Sample>

  /** Sample rate of the recording, in samples per second. */
  const SAMPLE_RATE: nat := 16000

  /** The result of assembling a recording: either nothing was recorded, or
      one contiguous buffer of samples. */
  datatype Recording = NoAudio | Buffer(samples: seq<Sample>)

  /** The thread-safe FIFO queue shared by the capture callback and the main
      control path; `items` lists the chunks from oldest to newest. */
  class ChunkQueue {
    var items: seq<Chunk>

    constructor ()
      ensures items == []
    {
      items := [];
    }

    /** `q.put(chunk)`: the callback appends a copy of each chunk. */
    method Put(chunk: Chunk)
      modifies this
      ensures items == old(items) + [chunk]
    {
      items := items + [chunk];
    }

    /** `q.empty()`. */
    method IsEmpty() returns (empty: bool)
      ensures empty <==> items == []
    {
      empty := items == [];
    }

    /** `q.get()`: removes and returns the oldest chunk. It is only called
        after `IsEmpty` has said there is one. */
    method Get() returns (chunk: Chunk)
      requires items != []
      modifies this
      ensures chunk == old(items)[0]
      ensures items == old(items)[1..]
    {
      chunk := items[0];
      items := items[1..];
    }
  }

  /** Total number of samples in a list of chunks. */
  function TotalLength(chunks: seq<Chunk>): nat
  {
    if chunks == [] then 0 else |chunks[0]| + TotalLength(chunks[1..])
  }

  /** The chunks laid end to end, in order. */
  function Concat(chunks: seq<Chunk>): (buffer: seq<Sample>)
    ensures |buffer| == TotalLength(chunks)
  {
    if chunks == [] then [] else chunks[0] + Concat(chunks[1..])
  }

  /** `not audio_chunks` decides the "no audio" case; otherwise the buffer
      is the concatenation. A list holding only empty chunks is not "no
      audio": it gives an empty buffer. */
  function Assemble(chunks: seq<Chunk>): (r: Recording)
    ensures r == NoAudio <==> chunks == []
    ensures r.Buffer? ==> r.samples == Concat(chunks) && |r.samples| == TotalLength(chunks)
  {
    if chunks == [] then NoAudio else Buffer(Concat(chunks))
  }

  /** Empties the queue into a list, oldest chunk first. */
  method DrainQueue(q: ChunkQueue) returns (chunks: seq<Chunk>)
    modifies q
    ensures chunks == old(q.items)
    ensures q.items == []
  {
    chunks := [];
    var empty := q.IsEmpty();
    while !empty
      invariant chunks + q.items == old(q.items)
      invariant empty <==> q.items == []
      decreases |q.items|
    {
      var chunk := q.Get();
      chunks := chunks + [chunk];
      empty := q.IsEmpty();
    }
  }

  /** Drain the queue after recording has stopped and combine the chunks. */
  method CombineAudio(q: ChunkQueue) returns (r: Recording)
    modifies q
    ensures r == Assemble(old(q.items))
    ensures q.items == []
  {
    var chunks := DrainQueue(q);
    if chunks == [] {
      return NoAudio;
    }
    r := Buffer(Concat(chunks));
  }

  /** `len(audio) / 16000`: the length of a buffer in seconds. */
  function DurationSeconds(samples: seq<Sample>): (d: real)
    ensures d >= 0.0
    ensures d == 0.0 <==> samples == []
    ensures d * SAMPLE_RATE as real == |samples| as real
  {
    |samples| as real / SAMPLE_RATE as real
  }

  // ---------------------------------------------------------------------
  // Lemmas

  /** Concatenating two lists of chunks concatenates their buffers: the
      buffer grows by exactly the chunk appended last. */
  lemma {:induction false} ConcatAppend(a: seq<Chunk>, b: seq<Chunk>)
    ensures Concat(a + b) == Concat(a) + Concat(b)
    decreases |a|
  {
    if a == [] {
      assert a + b == b;
    } else {
      assert (a + b)[1..] == a[1..] + b;
      ConcatAppend(a[1..], b);
    }
  }

  /** Samples keep their chunk order: sample `j` of chunk `k` sits in the
      buffer right after all samples of the chunks before `k`. */
  lemma {:induction false} ConcatAt(chunks: seq<Chunk>, k: nat, j: nat)
    requires k < |chunks| && j < |chunks[k]|
    ensures TotalLength(chunks[..k]) + j < |Concat(chunks)|
    ensures Concat(chunks)[TotalLength(chunks[..k]) + j] == chunks[k][j]
    decreases k
  {
    if k == 0 {
      assert chunks[..0] == [];
    } else {
      var rest := chunks[1..];
      assert rest[..k - 1] == chunks[1..k];
      assert chunks[..k][1..] == chunks[1..k];
      ConcatAt(rest, k - 1, j);
    }
  }

  /** Chunks [[1, 2], [3, 4]] assemble into [1, 2, 3, 4]. */
  lemma TwoChunks()
    ensures Assemble([[1.0, 2.0], [3.0, 4.0]]) == Buffer([1.0, 2.0, 3.0, 4.0])
  {
    assert Concat([[3.0, 4.0]]) == [3.0, 4.0];
  }
}
