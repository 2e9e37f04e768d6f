/**
 * What the streamed write guarantees: the k-th append goes to offset
 * `k * 1 MiB` and carries the k-th chunk; it ends well exactly when every
 * read and every append succeeds; and when every chunk but the last is a
 * full 1 MiB, each offset is the number of bytes sent before it, so the
 * appends lay the stream's bytes down contiguously.
 */
module StreamingProperties {
  import opened Php
  import opened Oss
  import opened Streaming

  /** The append for read `k`, as `writeStream` sends it. */
  function AppendFor(bucket: string, path: string, results: seq<Read>, k: nat, options: Bag): Call
    requires k < |results| && results[k].Chunk?
  {
    AppendObject(bucket, path, results[k].data, k * BufferSize, options)
  }

  /** The append for read `j` (counted from the start of the write) carries that chunk at offset `j * BufferSize`. */
  lemma {:induction false} AppendOffsets(bucket: string, path: string, results: seq<Read>, i: nat, options: Bag, rejects: set<Call>)
    requires i <= |results|
    ensures var w := Appends(bucket, path, results, i, options, rejects);
      && i + |w.calls| <= |results|
      && forall j :: i <= j < i + |w.calls| ==>
           && results[j].Chunk?
           && w.calls[j - i] == AppendObject(bucket, path, results[j].data, j * BufferSize, options)
    decreases |results| - i
  {
    if i < |results| && results[i].Chunk? {
      var call := AppendObject(bucket, path, results[i].data, i * BufferSize, options);
      if call !in rejects {
        AppendOffsets(bucket, path, results, i + 1, options, rejects);
        var rest := Appends(bucket, path, results, i + 1, options, rejects);
        var w := Appends(bucket, path, results, i, options, rejects);
        assert w.calls == [call] + rest.calls;
      }
    }
  }

  /**
   * The write ends well exactly when every remaining read succeeds and no
   * append is refused, and then it sends one append per read. Otherwise it
   * stops at the first failed read (`fread failed`, no append for it) or at
   * the first refused append (the provider's error, that append last); every
   * append before the last was accepted.
   */
  lemma {:induction false} AppendsOutcome(bucket: string, path: string, results: seq<Read>, i: nat, options: Bag, rejects: set<Call>)
    requires i <= |results|
    ensures var w := Appends(bucket, path, results, i, options, rejects);
      && (w.outcome.Pass? <==>
            forall k :: i <= k < |results| ==>
              results[k].Chunk? && AppendFor(bucket, path, results, k, options) !in rejects)
      && (w.outcome.Pass? ==> |w.calls| == |results| - i)
      && (w.outcome.Fail? ==>
            || (i + |w.calls| < |results| && results[i + |w.calls|].ReadFailure?
                && w.outcome.error == UnableToWriteFile(path, ReadFailed))
            || (|w.calls| > 0 && w.calls[|w.calls| - 1] in rejects
                && w.outcome.error == ProviderError(w.calls[|w.calls| - 1])))
    ensures forall j :: 0 <= j < |Appends(bucket, path, results, i, options, rejects).calls| - 1 ==>
      Appends(bucket, path, results, i, options, rejects).calls[j] !in rejects
    decreases |results| - i
  {
    var w := Appends(bucket, path, results, i, options, rejects);
    if i < |results| && results[i].Chunk? {
      var call := AppendObject(bucket, path, results[i].data, i * BufferSize, options);
      assert call == AppendFor(bucket, path, results, i, options);
      if call !in rejects {
        AppendsOutcome(bucket, path, results, i + 1, options, rejects);
        var rest := Appends(bucket, path, results, i + 1, options, rejects);
        assert w.calls == [call] + rest.calls;
        if |rest.calls| > 0 {
          assert w.calls[|w.calls| - 1] == rest.calls[|rest.calls| - 1];
        }
        forall j | 0 < j < |w.calls| - 1
          ensures w.calls[j] !in rejects
        {
          assert w.calls[j] == rest.calls[j - 1];
        }
      }
    }
  }

  /** The tests' case: a stream read in one chunk gives exactly one append, at offset 0. */
  lemma SingleChunk(bucket: string, path: string, data: Bytes, options: Bag, rejects: set<Call>)
    requires AppendObject(bucket, path, data, 0, options) !in rejects
    ensures Appends(bucket, path, [Chunk(data)], 0, options, rejects)
         == WriteRun([AppendObject(bucket, path, data, 0, options)], Pass)
  {
  }

  /** Reads that all succeed, each a full buffer except possibly the last. */
  predicate FullChunks(results: seq<Read>)
  {
    && (forall k :: 0 <= k < |results| ==> results[k].Chunk? && |results[k].data| <= BufferSize)
    && (forall k :: 0 <= k < |results| - 1 ==> |results[k].data| == BufferSize)
  }

  lemma {:induction false} JoinedLength(results: seq<Read>, k: nat)
    requires FullChunks(results) && k < |results|
    ensures |Joined(results[..k])| == k * BufferSize
    decreases k
  {
    if k > 0 {
      JoinedLength(results, k - 1);
      assert results[..k][..k - 1] == results[..k - 1];
    } else {
      assert results[..0] == [];
    }
  }

  lemma {:induction false} AppendedJoined(calls: seq<Call>, results: seq<Read>)
    requires |calls| == |results|
    requires forall k :: 0 <= k < |results| ==> results[k].Chunk? && calls[k].AppendObject? && calls[k].content == results[k].data
    ensures Appended(calls) == Joined(results)
    decreases |results|
  {
    if results != [] {
      AppendedJoined(calls[..|calls| - 1], results[..|results| - 1]);
    }
  }

  /** A write that ends well sends one append per read, the k-th carrying chunk k at offset `k * BufferSize`. */
  lemma PassedAppends(bucket: string, path: string, results: seq<Read>, options: Bag, rejects: set<Call>)
    requires Appends(bucket, path, results, 0, options, rejects).outcome.Pass?
    ensures var w := Appends(bucket, path, results, 0, options, rejects);
      && |w.calls| == |results|
      && forall k :: 0 <= k < |results| ==>
           results[k].Chunk? && w.calls[k] == AppendObject(bucket, path, results[k].data, k * BufferSize, options)
  {
    var w := Appends(bucket, path, results, 0, options, rejects);
    AppendOffsets(bucket, path, results, 0, options, rejects);
    AppendsOutcome(bucket, path, results, 0, options, rejects);
    forall k | 0 <= k < |results|
      ensures results[k].Chunk? && w.calls[k] == AppendObject(bucket, path, results[k].data, k * BufferSize, options)
    {
      assert w.calls[k - 0] == AppendObject(bucket, path, results[k].data, k * BufferSize, options);
    }
  }

  /**
   * Streamed write of a stream whose chunks are full buffers but for the last:
   * every offset equals the number of bytes appended before it, and the
   * appended bytes are, in order, exactly the stream's bytes.
   */
  lemma Contiguous(bucket: string, path: string, results: seq<Read>, options: Bag, rejects: set<Call>)
    requires FullChunks(results)
    requires Appends(bucket, path, results, 0, options, rejects).outcome.Pass?
    ensures var w := Appends(bucket, path, results, 0, options, rejects);
      && |w.calls| == |results|
      && (forall k :: 0 <= k < |w.calls| ==> w.calls[k].AppendObject? && w.calls[k].position == |Appended(w.calls[..k])|)
      && Appended(w.calls) == Joined(results)
  {
    var calls := Appends(bucket, path, results, 0, options, rejects).calls;
    PassedAppends(bucket, path, results, options, rejects);
    AppendedJoined(calls, results);
    forall k | 0 <= k < |calls|
      ensures calls[k].AppendObject? && calls[k].position == |Appended(calls[..k])|
    {
      JoinedLength(results, k);
      AppendedJoined(calls[..k], results[..k]);
    }
  }
}
