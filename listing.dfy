/**
 * The directory listing of `Adapter::listContents` as specification
 * functions: how a flat, prefix-delimited object namespace, read page by
 * page through continuation markers, becomes a sequence of `dir` and `file`
 * entries, and which `listObjects` requests that takes.
 *
 * The source loops until the provider returns an empty marker and recurses
 * into every common prefix, trimming it again; neither need end. A common
 * prefix such as `a//` trims back to the directory being listed, so the deep
 * listing repeats its own first request forever (`DoubleSlashLoops`). The
 * model therefore carries `fuel`, a budget of `listObjects` requests: each
 * request spends one unit, and a listing that would need more ends with
 * `OutOfFuel`. `ListDirFuel` shows that a listing which completes gives the
 * same requests and entries under every larger budget.
 */
module Listing {
  import opened Php
  import opened Oss

  const MaxKeys := 1000
  const Delimiter := "/"

  /** One entry of a listing; `lastModified` is the provider's raw Last-Modified text. */
  datatype Entry = Dir(path: string) | File(path: string, lastModified: string, size: int)

  predicate IsSeparator(c: char)
  {
    c == '/' || c == '\\'
  }

  /** `rtrim($path, '\\/')`: the path without its trailing slashes and backslashes. */
  function TrimSeparators(s: string): (r: string)
    ensures r <= s
    ensures r == [] || !IsSeparator(r[|r| - 1])
    ensures forall i :: |r| <= i < |s| ==> IsSeparator(s[i])
  {
    if |s| > 0 && IsSeparator(s[|s| - 1]) then TrimSeparators(s[..|s| - 1]) else s
  }

  /** The options of every page request for `directory`. */
  function Request(directory: string, marker: string): ListRequest
  {
    ListRequest(MaxKeys, directory + "/", Delimiter, marker)
  }

  /** The zero-byte object that stands for the directory itself. */
  predicate IsMarker(directory: string, o: ObjectInfo)
  {
    o.size == 0 && o.key == directory + "/"
  }

  function FileOf(o: ObjectInfo): Entry
  {
    File(o.key, o.lastModified, o.size)
  }

  /** The `file` entries of one page's objects, in page order, without the directory's marker. */
  function FileEntries(directory: string, objects: seq<ObjectInfo>): (r: seq<Entry>)
    ensures |r| <= |objects|
    ensures forall i :: 0 <= i < |r| ==>
      r[i].File? && !(r[i].size == 0 && r[i].path == directory + "/")
  {
    if objects == [] then []
    else
      var last := objects[|objects| - 1];
      FileEntries(directory, objects[..|objects| - 1])
        + (if IsMarker(directory, last) then [] else [FileOf(last)])
  }

  /** The `dir` entries of one page's common prefixes, in page order. */
  function Dirs(prefixes: seq<string>): seq<Entry>
  {
    if prefixes == [] then [] else [Dir(prefixes[0])] + Dirs(prefixes[1..])
  }

  /** The calls a listing issued, the budget left, and its entries or its error. */
  datatype Run = Run(calls: seq<Call>, fuel: nat, result: Result<seq<Entry>>)

  /** `run` preceded by earlier calls and, if it succeeds, by earlier entries. */
  function Prepend(entries: seq<Entry>, calls: seq<Call>, run: Run): Run
  {
    Run(calls + run.calls, run.fuel,
        match run.result
        case Success(rest) => Success(entries + rest)
        case Failure(e) => Failure(e))
  }

  /** `listContents($path, $deep)` with a budget of `fuel` page requests. */
  function ListDir(pages: Pages, bucket: string, path: string, deep: bool, fuel: nat): (r: Run)
    ensures |r.calls| + r.fuel == fuel
    decreases fuel, 2, 0
  {
    PagesFrom(pages, bucket, TrimSeparators(path), "", deep, fuel)
  }

  /** The pages of `directory` from continuation `marker` on: one turn of the `while (true)` loop and the rest. */
  function PagesFrom(pages: Pages, bucket: string, directory: string, marker: string, deep: bool, fuel: nat): (r: Run)
    ensures |r.calls| + r.fuel == fuel
    decreases fuel, 1, 0
  {
    if fuel == 0 then Run([], 0, Failure(OutOfFuel))
    else
      var request := Request(directory, marker);
      var call := ListObjects(bucket, request);
      if (bucket, request) !in pages then Run([call], fuel - 1, Failure(ProviderError(call)))
      else
        var page := pages[(bucket, request)];
        Prepend([], [call], AfterPrefixes(pages, bucket, directory, page, deep,
                                          PrefixEntries(pages, bucket, page.prefixes, deep, fuel - 1)))
  }

  /** The `foreach ($prefixList ...)` loop: a `dir` entry per prefix, followed by its listing when `deep`. */
  function PrefixEntries(pages: Pages, bucket: string, prefixes: seq<string>, deep: bool, fuel: nat): (r: Run)
    ensures |r.calls| + r.fuel == fuel
    decreases fuel, 3, |prefixes|
  {
    if prefixes == [] then Run([], fuel, Success([]))
    else if !deep then Prepend([Dir(prefixes[0])], [], PrefixEntries(pages, bucket, prefixes[1..], deep, fuel))
    else
      var sub := ListDir(pages, bucket, prefixes[0], deep, fuel);
      match sub.result
      case Failure(_) => sub
      case Success(below) =>
        Prepend([Dir(prefixes[0])] + below, sub.calls,
                PrefixEntries(pages, bucket, prefixes[1..], deep, sub.fuel))
  }

  /** What follows a page's prefixes: its files, then the next page unless the marker is empty. */
  function AfterPrefixes(pages: Pages, bucket: string, directory: string, page: Page, deep: bool, sub: Run): (r: Run)
    ensures |r.calls| + r.fuel == |sub.calls| + sub.fuel
    decreases sub.fuel, 2, 0
  {
    match sub.result
    case Failure(_) => sub
    case Success(dirs) =>
      var found := dirs + FileEntries(directory, page.objects);
      if page.nextMarker == "" then Run(sub.calls, sub.fuel, Success(found))
      else Prepend(found, sub.calls, PagesFrom(pages, bucket, directory, page.nextMarker, deep, sub.fuel))
  }

  /** The keys `deleteDirectory` collects from a listing, in listing order. */
  function Paths(entries: seq<Entry>): (keys: seq<string>)
    ensures |keys| == |entries|
    ensures forall i :: 0 <= i < |entries| ==> keys[i] == entries[i].path
  {
    if entries == [] then [] else [entries[0].path] + Paths(entries[1..])
  }

  /** One page's entries in a shallow listing: its `dir` entries, then its `file` entries. */
  function PageEntries(directory: string, page: Page): seq<Entry>
  {
    Dirs(page.prefixes) + FileEntries(directory, page.objects)
  }

  /** The entries of consecutive pages, in page order. */
  function PagesEntries(directory: string, ps: seq<Page>): seq<Entry>
  {
    if ps == [] then [] else PageEntries(directory, ps[0]) + PagesEntries(directory, ps[1..])
  }

  /** Whether the provider answers a listing call with a page. */
  predicate Answered(pages: Pages, call: Call)
  {
    call.ListObjects? && (call.bucket, call.request) in pages
  }

  /** The page the provider returns for a listing call (empty when it fails). */
  function PageFor(pages: Pages, call: Call): Page
  {
    if Answered(pages, call) then pages[(call.bucket, call.request)] else Page([], [], "")
  }

  /** The pages returned for a sequence of listing calls. */
  function Fetched(pages: Pages, calls: seq<Call>): seq<Page>
  {
    if calls == [] then [] else [PageFor(pages, calls[0])] + Fetched(pages, calls[1..])
  }
}
