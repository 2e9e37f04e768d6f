/**
 * `Hyperf\Flysystem\OSS\Adapter`: the Flysystem adapter over an OSS client.
 * Each method is proved to send the client exactly the calls the
 * specification functions of `Listing`, `Streaming` and `Mappings` describe,
 * and to end as they say.
 */
module OssAdapter {
  import opened Php
  import opened Oss
  import opened Listing
  import opened ListingProperties
  import opened Streaming
  import opened Mappings

  /** Regrouping calls appended to a trace. */
  lemma Associative(a: seq<Call>, b: seq<Call>, c: seq<Call>)
    ensures a + (b + c) == (a + b) + c
  {
  }

  class Adapter {
    const client: Client
    const bucket: string

    /**
     * Resolves the settings, creates the client (where the source asks the
     * container to `make` one) and sets its two timeouts.
     */
    constructor (config: Config, pages: Pages, metas: map<(string, string), Meta>, rejects: set<Call>)
      ensures bucket == config.bucket
      ensures fresh(client)
      ensures client.args == Resolve(config).client
      ensures client.pages == pages && client.metas == metas && client.rejects == rejects
      ensures client.trace == [Call.SetTimeout(Resolve(config).timeout),
                               Call.SetConnectTimeout(Resolve(config).connectTimeout)]
    {
      bucket := config.bucket;
      var settings := Resolve(config);
      client := new Client(settings.client, pages, metas, rejects);
      new;
      client.SetTimeout(settings.timeout);
      client.SetConnectTimeout(settings.connectTimeout);
    }

    /**
     * `listContents($path, $deep)` within a budget of `fuel` page requests:
     * the requests sent, the entries (or the error) and the budget left are
     * those of `ListDir`.
     */
    method ListContents(path: string, deep: bool, fuel: nat) returns (r: Result<seq<Entry>>, rest: nat)
      modifies client
      ensures var run := ListDir(client.pages, bucket, path, deep, fuel);
        && client.trace == old(client.trace) + run.calls
        && r == run.result
        && rest == run.fuel
      decreases fuel, 2
    {
      ghost var pages := client.pages;
      var directory := TrimSeparators(path);
      ghost var target := ListDir(pages, bucket, path, deep, fuel);
      var result: seq<Entry> := [];
      var nextMarker := "";
      var left: nat := fuel;
      ghost var issued: seq<Call> := [];
      PrependNothing(target);
      while true
        invariant left <= fuel
        invariant client.trace == old(client.trace) + issued
        invariant Prepend(result, issued, PagesFrom(pages, bucket, directory, nextMarker, deep, left)) == target
        decreases left
      {
        if left == 0 {
          r, rest := Failure(OutOfFuel), 0;
          return;
        }
        PageStep(pages, bucket, directory, nextMarker, deep, left, result, issued);
        var options := Request(directory, nextMarker);
        var res := client.ListObjects(bucket, options);
        Associative(old(client.trace), issued, [ListObjects(bucket, options)]);
        issued := issued + [ListObjects(bucket, options)];
        left := left - 1;
        if res.Failure? {
          r, rest := Failure(res.error), left;
          return;
        }
        ghost var page := res.value;
        ghost var sub := PrefixEntries(pages, bucket, page.prefixes, deep, left);
        AfterStep(pages, bucket, directory, page, deep, sub, result, issued);

        nextMarker := res.value.nextMarker;
        var dirs, f := ListPrefixes(res.value.prefixes, deep, left);
        Associative(old(client.trace), issued, sub.calls);
        issued := issued + sub.calls;
        left := f;
        if dirs.Failure? {
          r, rest := dirs, left;
          return;
        }
        var files := CollectFiles(directory, res.value.objects);
        result := result + dirs.value + files;
        if nextMarker == "" {
          break;
        }
      }
      r, rest := Success(result), left;
    }

    /**
     * The `foreach ($prefixList ...)` loop of `listContents`: a `dir` entry
     * per prefix, each followed by that prefix's own listing when `deep`;
     * requests, entries and budget as `PrefixEntries` says.
     */
    method ListPrefixes(prefixes: seq<string>, deep: bool, fuel: nat) returns (r: Result<seq<Entry>>, rest: nat)
      modifies client
      ensures var run := PrefixEntries(client.pages, bucket, prefixes, deep, fuel);
        && client.trace == old(client.trace) + run.calls
        && r == run.result
        && rest == run.fuel
      decreases fuel, 3
    {
      ghost var pages := client.pages;
      ghost var target := PrefixEntries(pages, bucket, prefixes, deep, fuel);
      var result: seq<Entry> := [];
      var left: nat := fuel;
      ghost var issued: seq<Call> := [];
      PrependNothing(target);
      var i := 0;
      while i < |prefixes|
        invariant 0 <= i <= |prefixes|
        invariant left <= fuel
        invariant client.trace == old(client.trace) + issued
        invariant Prepend(result, issued, PrefixEntries(pages, bucket, prefixes[i..], deep, left)) == target
      {
        var prefix := prefixes[i];
        PrefixStep(pages, bucket, prefixes, i, deep, left, result, issued);
        result := result + [Dir(prefix)];
        if deep {
          ghost var sub := ListDir(pages, bucket, prefix, deep, left);
          var below, f := ListContents(prefix, deep, left);
          Associative(old(client.trace), issued, sub.calls);
          issued := issued + sub.calls;
          if below.Failure? {
            r, rest := below, f;
            return;
          }
          result := result + below.value;
          left := f;
        }
        i := i + 1;
      }
      assert prefixes[i..] == [];
      assert result + [] == result;
      assert issued + [] == issued;
      r, rest := Success(result), left;
    }

    /** The `foreach ($objectList ...)` loop of `listContents`: the page's `file` entries, skipping the directory's marker. */
    static method CollectFiles(directory: string, objects: seq<ObjectInfo>) returns (files: seq<Entry>)
      ensures files == FileEntries(directory, objects)
    {
      files := [];
      var j := 0;
      while j < |objects|
        invariant 0 <= j <= |objects|
        invariant files == FileEntries(directory, objects[..j])
      {
        var value := objects[j];
        assert objects[..j + 1][..j] == objects[..j];
        if value.size == 0 && value.key == directory + "/" {
          j := j + 1;
          continue;
        }
        files := files + [File(value.key, value.lastModified, value.size)];
        j := j + 1;
      }
      assert objects[..j] == objects;
    }

    /**
     * `writeStream`: a stream that is not an open resource is refused before
     * anything is sent; otherwise the appends and the outcome are those of
     * `Appends` over the stream's remaining reads, and the stream is closed
     * exactly when the write ends well.
     */
    method WriteStream(path: string, contents: Stream?, config: Bag) returns (r: Outcome)
      requires contents != null ==> contents.Valid()
      modifies client, contents
      ensures contents == null || !old(contents.open) ==>
        && r == Fail(UnableToWriteFile(path, InvalidResource))
        && client.trace == old(client.trace)
        && (contents != null ==> unchanged(contents))
      ensures contents != null && old(contents.open) ==>
        var w := Appends(bucket, path, old(contents.Remaining()), 0, OssOptions(config), client.rejects);
        && client.trace == old(client.trace) + w.calls
        && r == w.outcome
        && (contents.open <==> r.Fail?)
        && (r.Pass? ==> contents.position == |contents.results|)
    {
      if contents == null || !contents.open {
        r := Fail(UnableToWriteFile(path, InvalidResource));
        return;
      }
      ghost var remaining := contents.Remaining();
      ghost var start := contents.position;
      ghost var options := OssOptions(config);
      var i := 0;
      var bufferSize := 1024 * 1024;
      ghost var sent: seq<Call> := [];
      while !contents.Eof()
        invariant contents.Valid() && contents.open
        invariant contents.position == start + i && i <= |remaining|
        invariant remaining == contents.results[start..]
        invariant client.trace == old(client.trace) + sent
        invariant var w := Appends(bucket, path, remaining, i, options, client.rejects);
          Appends(bucket, path, remaining, 0, options, client.rejects) == WriteRun(sent + w.calls, w.outcome)
        decreases |contents.results| - contents.position
      {
        var buffer := contents.Read();
        if buffer.ReadFailure? {
          r := Fail(UnableToWriteFile(path, ReadFailed));
          assert sent + [] == sent;
          return;
        }
        var position := i * bufferSize;
        var ossOptions := GetOssOptions(config);
        var res := client.AppendObject(bucket, path, buffer.data, position, ossOptions);
        ghost var call := AppendObject(bucket, path, buffer.data, position, options);
        Associative(old(client.trace), sent, [call]);
        if res.Fail? {
          sent := sent + [call];
          r := res;
          return;
        }
        Associative(sent, [call], Appends(bucket, path, remaining, i + 1, options, client.rejects).calls);
        sent := sent + [call];
        i := i + 1;
      }
      assert sent + [] == sent;
      contents.Close();
      r := Pass;
    }

    /**
     * `deleteDirectory`: a deep listing; nothing more when it is empty,
     * otherwise one batch delete of every listed path, in listing order.
     */
    method DeleteDirectory(path: string, fuel: nat) returns (r: Outcome)
      modifies client
      ensures var run := ListDir(client.pages, bucket, path, true, fuel);
        match run.result
        case Failure(e) =>
          r == Fail(e) && client.trace == old(client.trace) + run.calls
        case Success(entries) =>
          if entries == [] then
            r == Pass && client.trace == old(client.trace) + run.calls
          else
            && client.trace == old(client.trace) + run.calls + [DeleteObjects(bucket, Paths(entries))]
            && r == client.Answer(DeleteObjects(bucket, Paths(entries)))
    {
      var lists, _ := ListContents(path, true, fuel);
      if lists.Failure? {
        r := Fail(lists.error);
        return;
      }
      if lists.value == [] {
        r := Pass;
        return;
      }
      var objectList: seq<string> := [];
      for k := 0 to |lists.value|
        invariant objectList == Paths(lists.value[..k])
      {
        assert Paths(lists.value[..k + 1]) == Paths(lists.value[..k]) + [lists.value[k].path];
        objectList := objectList + [lists.value[k].path];
      }
      assert lists.value[..|lists.value|] == lists.value;
      r := client.DeleteObjects(bucket, objectList);
    }

    /** `move`: a copy to the destination, then — only if the copy succeeded — a delete of the source. */
    method Move(source: string, destination: string) returns (r: Outcome)
      modifies client
      ensures var copy := CopyObject(bucket, source, bucket, destination);
        var delete := DeleteObject(bucket, source);
        if copy in client.rejects then
          client.trace == old(client.trace) + [copy] && r == Fail(ProviderError(copy))
        else
          client.trace == old(client.trace) + [copy, delete] && r == client.Answer(delete)
    {
      r := client.CopyObject(bucket, source, bucket, destination);
      if r.Fail? {
        return;
      }
      r := client.DeleteObject(bucket, source);
    }

    /** `copy`: one provider-side copy within the bucket. */
    method Copy(source: string, destination: string) returns (r: Outcome)
      modifies client
      ensures client.trace == old(client.trace) + [CopyObject(bucket, source, bucket, destination)]
      ensures r == client.Answer(CopyObject(bucket, source, bucket, destination))
    {
      r := client.CopyObject(bucket, source, bucket, destination);
    }

    /** `setVisibility`: one ACL update carrying `Acl(visibility)`. */
    method SetVisibility(path: string, visibility: string) returns (r: Outcome)
      modifies client
      ensures client.trace == old(client.trace) + [PutObjectAcl(bucket, path, Acl(visibility))]
      ensures r == client.Answer(PutObjectAcl(bucket, path, Acl(visibility)))
    {
      r := client.PutObjectAcl(bucket, path, if visibility == "public" then "public-read" else "private");
    }

    /** `fileSize`: one metadata request; the attributes are `SizeAttributes` of the answer. */
    method FileSize(path: string, toInt: Value -> int) returns (r: Result<FileAttributes>)
      modifies client
      ensures client.trace == old(client.trace) + [GetObjectMeta(bucket, path)]
      ensures (bucket, path) in client.metas ==> r == Success(SizeAttributes(path, client.metas[(bucket, path)], toInt))
      ensures (bucket, path) !in client.metas ==> r == Failure(ProviderError(GetObjectMeta(bucket, path)))
    {
      var response := client.GetObjectMeta(bucket, path);
      if response.Failure? {
        r := Failure(response.error);
        return;
      }
      var fileSize: Option<int> := None;
      if "content-length" in response.value && response.value["content-length"] != Null {
        fileSize := Some(toInt(response.value["content-length"]));
      }
      r := Success(FileAttributes(path, fileSize, None, None, None));
    }
  }
}
