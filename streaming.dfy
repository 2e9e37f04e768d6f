/**
 * The streamed write of `Adapter::writeStream`: the input is read in 1 MiB
 * chunks and each chunk is sent as an `appendObject` at offset
 * `chunk index * 1 MiB`.
 *
 * The input stream is a given sequence of read results (what successive
 * `fread` calls return before `feof` holds); a read may fail, and the chunk
 * sizes are whatever the stream delivers.
 */
module Streaming {
  import opened Php
  import opened Oss

  const BufferSize := 1024 * 1024

  const InvalidResource := "The contents is invalid resource."
  const ReadFailed := "fread failed"

  /** The result of one `fread`: the bytes read, or `false`. */
  datatype Read = Chunk(data: Bytes) | ReadFailure

  /** A PHP stream resource: its successive results, how many were consumed, and whether it is still open. */
  class Stream {
    const results: seq<Read>
    var position: nat
    var open: bool

    ghost predicate Valid()
      reads this
    {
      position <= |results|
    }

    constructor (results: seq<Read>)
      ensures this.results == results && position == 0 && open && Valid()
    {
      this.results := results;
      position := 0;
      open := true;
    }

    /** The results not yet consumed. */
    ghost function Remaining(): seq<Read>
      reads this
      requires Valid()
    {
      results[position..]
    }

    /** `feof`. */
    predicate Eof()
      reads this
    {
      position >= |results|
    }

    /** `fread`: the next read result; at the end of the stream, an empty chunk. */
    method Read() returns (r: Read)
      requires Valid()
      modifies this
      ensures Valid() && open == old(open)
      ensures old(position) < |results| ==> r == results[old(position)] && position == old(position) + 1
      ensures old(position) >= |results| ==> r == Chunk([]) && position == old(position)
    {
      if position < |results| {
        r := results[position];
        position := position + 1;
      } else {
        r := Chunk([]);
      }
    }

    /** `fclose`. */
    method Close()
      modifies this
      ensures !open && position == old(position)
    {
      open := false;
    }
  }

  /** The append calls a streamed write sends and how it ends. */
  datatype WriteRun = WriteRun(calls: seq<Call>, outcome: Outcome)

  /**
   * The appends for `results` from index `i` on: chunk `k` goes to offset
   * `k * BufferSize`; a failed read ends the write with `fread failed`, a
   * refused append with the provider's error.
   */
  function Appends(bucket: string, path: string, results: seq<Read>, i: nat, options: Bag, rejects: set<Call>): (w: WriteRun)
    requires i <= |results|
    ensures |w.calls| <= |results| - i
    decreases |results| - i
  {
    if i == |results| then WriteRun([], Pass)
    else match results[i]
      case ReadFailure => WriteRun([], Fail(UnableToWriteFile(path, ReadFailed)))
      case Chunk(data) =>
        var call := AppendObject(bucket, path, data, i * BufferSize, options);
        if call in rejects then WriteRun([call], Fail(ProviderError(call)))
        else
          var rest := Appends(bucket, path, results, i + 1, options, rejects);
          WriteRun([call] + rest.calls, rest.outcome)
  }

  /** The concatenated bytes of a run of successful results. */
  function Joined(results: seq<Read>): Bytes
  {
    if results == [] then [] else Joined(results[..|results| - 1]) + (if results[|results| - 1].Chunk? then results[|results| - 1].data else [])
  }

  /** The concatenated contents of a run of append calls. */
  function Appended(calls: seq<Call>): Bytes
  {
    if calls == [] then [] else Appended(calls[..|calls| - 1]) + (if calls[|calls| - 1].AppendObject? then calls[|calls| - 1].content else [])
  }
}
