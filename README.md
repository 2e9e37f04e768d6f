# flysystem-oss adapter, modelled in Dafny

This project models `Hyperf\Flysystem\OSS\Adapter`. The adapter is a Flysystem
storage adapter that turns filesystem operations into calls on an Aliyun OSS
client. Most of its methods forward one call. The model covers the parts with
logic of their own:

- the directory listing (`listContents`): trailing-separator trimming, the
  continuation-marker page loop, skipping the directory's own zero-byte
  marker object, and, when `deep`, splicing each prefix's listing right after
  its `dir` entry;
- the streamed write (`writeStream`): 1 MiB reads, each sent as one
  `appendObject` at offset `chunk index * 1048576`;
- the call sequences of `deleteDirectory`, `move` and `copy`;
- the small mappings: the constructor's defaults, the visibility-to-ACL
  mapping of `setVisibility`, the options of `getOssOptions`, and the size
  extraction of `fileSize`.

The OSS client is an oracle, the class `Oss.Client`. It records every call it
receives in a `trace`. It answers `listObjects` from a fixed map of pages,
keyed by bucket and request options; a missing key is the provider's error.
It answers `getObjectMeta` from a fixed map of metadata. It refuses exactly
the calls in a fixed set `rejects`. A PHP exception thrown by the client or
by the adapter becomes a `Failure`/`Fail` value, and nothing after it runs.

Modules:

- `Php`: PHP values, their truthiness and array lookup.
- `Oss`: the client oracle, its calls and errors.
- `Listing`: the listing as specification functions.
- `ListingProperties`: what those functions guarantee.
- `Streaming`: the stream resource and the appends of a streamed write.
- `StreamingProperties`: the offset, outcome and contiguity results.
- `Mappings`: the pure translations.
- `OssAdapter`: the class `Adapter`. Each method is proved to send the calls
  the specification functions describe and to end as they say.

The listing need not end. The provider may keep returning markers. More
importantly, the source itself can loop on ordinary keys. A deep listing
recurses into each returned common prefix. That prefix is then trimmed again,
and a prefix such as `a//` trims back to the directory being listed (see
"## Findings"). The model therefore gives every listing a budget `fuel` of
`listObjects` requests. Each request spends one unit, and a listing that
would need more ends with `OutOfFuel`. `ListDirFuel` shows that a listing
which completes within a budget gives the same requests and entries under
any larger one.

`writeStream` calls `fclose` (src/Adapter.php:96) only after its loop ends
normally. After `fread failed` or an exception from the provider, the stream
stays open. `WriteStream` ensures the same: the stream is closed exactly when
the write succeeds.

## Model

| member | source | states |
|---|---|---|
| `Listing.TrimSeparators` | src/Adapter.php:172 | The result is a prefix of the path, does not end in `/` or `\`, and everything removed is a separator. |
| `Listing.FileEntries` | src/Adapter.php:204-216 | A page's objects give at most one entry each; every entry is a `file` entry, and none is a zero-byte object keyed `directory + "/"`. |
| `Listing.ListDir` | src/Adapter.php:170-223 | A listing's requests plus its remaining budget equal the budget it started with. |
| `Listing.PagesFrom` | src/Adapter.php:175-220 | Each turn of the page loop spends one request of the budget; requests plus the budget left equal the budget given. |
| `Listing.PrefixEntries` | src/Adapter.php:193-203 | The prefix loop's recursive listings spend exactly the requests they send. |
| `Listing.AfterPrefixes` | src/Adapter.php:204-219 | Finishing a page and following its marker spends exactly the requests it sends. |
| `Listing.Paths` | src/Adapter.php:120-123 | One key per listed entry, in listing order: key `i` is the path of entry `i`. |
| `ListingProperties.TrimIdempotent` | src/Adapter.php:172 | Trimming a trimmed path changes nothing. |
| `ListingProperties.FileEntriesAppend` | src/Adapter.php:204-215 | The file entries of two runs of objects are those of the first run followed by those of the second. |
| `ListingProperties.FileEntriesUnmarked` | src/Adapter.php:204-215 | Without the marker object, every object becomes exactly one `file` entry with its key, Last-Modified and size, in page order. |
| `ListingProperties.FileEntriesSingle` | src/Adapter.php:206-215 | The marker object gives no entry; any other object gives its own `file` entry. |
| `ListingProperties.ShallowPrefixes` | src/Adapter.php:193-203 | Without `deep`, each prefix becomes one `dir` entry, in page order, and no request is sent. |
| `ListingProperties.ShallowPaginates` | src/Adapter.php:175-190 | A shallow listing's requests follow the marker protocol: the first uses the given marker, and each later one uses the previous page's non-empty `nextMarker`. |
| `ListingProperties.ShallowFailure` | src/Adapter.php:185-190 | A shallow listing fails only when the budget is spent, or with the provider's error for its last request. |
| `ListingProperties.ShallowProtocol` | src/Adapter.php:175-190 | The first request uses the given marker. Each later request uses the previous page's `nextMarker` and follows only a page whose marker is not empty. A listing fails only when the budget is spent or the last request is refused. |
| `ListingProperties.ShallowPages` | src/Adapter.php:187-220 | A shallow listing succeeds only after a page with an empty `nextMarker`. It then gives each fetched page's `dir` entries followed by its `file` entries, page by page. |
| `ListingProperties.ShallowListing` | src/Adapter.php:170-223 | `listContents($path, false)`: it follows the marker protocol from an empty marker on the trimmed path. On success the entries are the fetched pages' entries in order, and none is the directory's marker. |
| `ListingProperties.PagesEntriesSkipMarker` | src/Adapter.php:206-208 | No `file` entry of any run of pages is a zero-byte object keyed `directory + "/"`. |
| `ListingProperties.DirsAreDirs` | src/Adapter.php:193-198 | One `dir` entry per common prefix, in page order. |
| `ListingProperties.PageOrder` | src/Adapter.php:175-220 | For shallow and deep listings alike, a completed listing from `marker` sends one request with that marker, then the requests of the page's prefix listings. Its entries are the page's `dir` entries (each with its subtree when `deep`), then its `file` entries. If the page's `nextMarker` is empty, nothing follows. Otherwise the completed listing from that `nextMarker` follows, in both entries and requests. |
| `ListingProperties.ListDirRequests` | src/Adapter.php:172-186 | Every request of any listing, shallow or deep, is a `listObjects` on the adapter's bucket. It has max-keys 1000 and delimiter `/`, and its prefix is a trimmed path plus `/`. |
| `ListingProperties.ListDirFirstRequest` | src/Adapter.php:172-186 | The first request is for the trimmed path plus `/` with an empty marker. |
| `ListingProperties.ListDirFuel` | src/Adapter.php:170-223 | A listing that completes within a budget sends the same requests and gives the same entries under any larger budget. |
| `ListingProperties.ListDirSpliced` | src/Adapter.php:199-201 | In a completed deep listing, every `dir` entry is immediately followed by the complete deep listing of its prefix. |
| `ListingProperties.DoubleSlashLoops` | src/Adapter.php:170-203 | As written, the deep listing of `a` whose page returns the common prefix `a//` fails with `OutOfFuel` under every budget. Every request it sends is the first request again. |
| `ListingProperties.ReTrimmedRequests` | src/Adapter.php:172-200 | As written, the sub-listing of the common prefix `a//` asks for prefix `a/`, and that of `x/a\/` asks for `x/a/`, instead of the prefix returned. |
| `ListingProperties.BackslashSpliced` | src/Adapter.php:172-201 | As written, when the listing of `x` returns the common prefix `x/a\/`, the deep listing of `x` sends a second request for `x/a/`. It puts that directory's file `x/a/c` right after the `dir` entry `x/a\/`, although the key does not start with that prefix. |
| `ListingProperties.PrefixDirectory` | src/Adapter.php:200 | The corrected directory of a returned common prefix drops only the final delimiter: one character shorter, and a prefix of it. |
| `ListingProperties.PrefixDirectoryRequest` | src/Adapter.php:183-200 | A sub-listing of `PrefixDirectory(prefix)` asks for exactly `prefix`, with max-keys 1000 and delimiter `/`. |
| `Streaming.Appends` | src/Adapter.php:86-95 | A streamed write from read `i` sends at most one append per remaining read. |
| `StreamingProperties.AppendOffsets` | src/Adapter.php:92-93 | The append for read `j` carries that read's bytes at offset `j * 1048576`. |
| `StreamingProperties.AppendsOutcome` | src/Adapter.php:86-95 | The write succeeds exactly when every read succeeds and no append is refused; it then sends one append per read. Otherwise it stops at the first failed read (`fread failed`, no append for that read) or at the first refused append (the provider's error); every append before the last was accepted. |
| `StreamingProperties.SingleChunk` | tests/Cases/OssAdapterTest.php:63-75 | A stream read in one chunk gives exactly one append, at offset 0. |
| `StreamingProperties.PassedAppends` | src/Adapter.php:86-95 | A successful write sends one append per read: append `k` carries chunk `k` at offset `k * 1048576`. |
| `StreamingProperties.Contiguous` | src/Adapter.php:86-95 | When every chunk but the last is a full 1 MiB, each offset equals the bytes appended before it, and the appended bytes are the stream's bytes in order. |
| `Mappings.Resolve` | src/Adapter.php:51-56 | Given settings pass through unchanged. Missing ones become endpoint `oss-cn-hangzhou.aliyuncs.com`, timeout 3600, connect timeout 10, `isCName` false, and null token and proxy. |
| `Mappings.Acl` | src/Adapter.php:137 | `public-read` exactly for `public`, `private` exactly for anything else. |
| `Mappings.OssOptions` | src/Adapter.php:236-252 | `headers` and `Content-Type` are copied exactly when truthy. `Content-Md5` and `checkmd5 = false` are both present exactly when `Content-Md5` is truthy. No other key appears. |
| `Mappings.GetOssOptions` | src/Adapter.php:236-252 | Filling the options key by key gives `OssOptions`. |
| `Mappings.SizeAttributes` | src/Adapter.php:159-167 | The size is set exactly when the metadata holds a non-null `content-length`, and is its integer value. No other attribute is set. |
| `OssAdapter.Adapter.constructor` | src/Adapter.php:46-69 | The client gets the resolved credentials, endpoint, CName flag, token and proxy. Its only calls are `setTimeout` then `setConnectTimeout`, with the resolved values. |
| `OssAdapter.Adapter.ListContents` | src/Adapter.php:170-223 | The requests sent, the entries or error, and the budget left are exactly those of `ListDir`. |
| `OssAdapter.Adapter.ListPrefixes` | src/Adapter.php:193-203 | The prefix loop's requests, entries and budget are those of `PrefixEntries`. |
| `OssAdapter.Adapter.CollectFiles` | src/Adapter.php:204-216 | The object loop gives exactly `FileEntries` of the page's objects. |
| `OssAdapter.Adapter.WriteStream` | src/Adapter.php:81-97 | A closed or missing stream is refused with `UnableToWriteFile` before any call, and the stream is left as it was. Otherwise the appends and the outcome are those of `Appends`, and the stream is closed exactly when the write succeeds; a successful write leaves it read to the end. |
| `OssAdapter.Adapter.DeleteDirectory` | src/Adapter.php:114-125 | A deep listing first. If it fails, that error. If it is empty, no further call. Otherwise one `deleteObjects` of every listed path, in listing order. |
| `OssAdapter.Adapter.Move` | src/Adapter.php:225-229 | `copyObject(source → destination)`, then `deleteObject(source)` only if the copy succeeded. |
| `OssAdapter.Adapter.Copy` | src/Adapter.php:231-234 | Exactly one `copyObject` within the bucket. |
| `OssAdapter.Adapter.SetVisibility` | src/Adapter.php:132-138 | Exactly one `putObjectAcl`, carrying `Acl(visibility)`. |
| `OssAdapter.Adapter.FileSize` | src/Adapter.php:159-168 | One `getObjectMeta`. The attributes are `SizeAttributes` of the metadata, or the provider's error when it has none. |

## Left out

- The OSS SDK (`OssClient`) is not part of this model. Its network, signing, ACL storage, and append and batch-delete semantics are replaced by the oracle `Oss.Client`, which keeps a call trace and does not store what is written.
- `fileExists`, `write`, `read`, `delete`, `createDirectory`, `visibility`, `mimeType` and `lastModified` are left out. Each forwards one client call and has no logic of its own.
- `readStream` and `ResourceGenerator` are left out. They construct resources.
- `temporaryUrl`, which the tests call, is not defined by the adapter and is left out.
- The `make(...)` container lookup in the constructor is left out. The constructor creates the client itself and takes the oracle's answers as arguments.
- The constructor's three required settings (`bucket`, `accessId`, `accessSecret`) are always present in the model. A missing key would make PHP pass `null`; that is not modelled.
- `Listing.ListDir`, `Listing.PagesFrom`, `Listing.PrefixEntries`, `Listing.AfterPrefixes`: their own contracts state only how the budget is spent. What the listing guarantees is stated by the lemmas of `ListingProperties` and by `Adapter.ListContents`.
- `Listing.ListDir`: the listing carries a request budget (`fuel`). A listing that would not end, such as the re-trimming loop under "## Findings" or a provider whose markers never end, ends with `OutOfFuel` instead of looping.
- `Listing.ListDir` keeps the source's re-trimming of sub-listing paths. The corrected `PrefixDirectory` under "## Findings" is proved on its own, and the listing model does not use it.
- `Listing.FileEntries`: the `timestamp` of a `file` entry is kept as the raw Last-Modified text. The `strtotime` conversion is not modelled.
- `Streaming.Appends`: its own contract bounds the number of appends only. Offsets, contents and outcome are stated by the lemmas of `StreamingProperties`.
- `Mappings.SizeAttributes`: PHP's `(int)` cast of `content-length` is the function parameter `toInt`.
- Stream I/O (`is_resource`, `feof`, `fread`, `fclose`) is abstracted. A stream is the given sequence of read results, each a chunk or a failure. `feof` holds once all of them are consumed, and a resource that is not open counts as not a resource.
- The `Config` argument of `move` and `copy` is unused by the source and is left out.
- `getOssOptions` reads the Flysystem `Config` as a PHP array whose missing keys read as `null`. `Config`'s own default handling is left out.

## Findings

| source | as written | input that shows it | evidently intended | confidence | as-written member | corrected member |
|---|---|---|---|---|---|---|
| src/Adapter.php:172-200 | A deep listing calls `listContents($prefix, $deep)` on each returned common prefix. That call applies `rtrim($path, '\\/')` again, which strips every trailing `/` and `\`. | Directory `a` holds the key `a//b`, so the listing of `a/` returns the common prefix `a//`. It trims back to `a`, the same request is sent again at every level, and `deleteDirectory("a")` never completes normally. Likewise a key `x/a\/b` makes the listing of `x/` return the common prefix `x/a\/`. That trims to `x/a`, so the listing of the other directory `x/a/` is spliced under the `dir` entry `x/a\/`. | The sub-listing asks for exactly the common prefix returned, dropping only its final delimiter. | medium, not executed | `ListingProperties.DoubleSlashLoops`, `ListingProperties.ReTrimmedRequests`, `ListingProperties.BackslashSpliced` | `ListingProperties.PrefixDirectory`, `ListingProperties.PrefixDirectoryRequest` |
