/**
 * What the listing of `Adapter::listContents` guarantees: the requests it
 * sends, how it follows continuation markers, which objects become `file`
 * entries, where subtrees are spliced in, and that the request budget of the
 * model does not change a listing that completes.
 */
module ListingProperties {
  import opened Php
  import opened Oss
  import opened Listing

  // ----- Helpers for composing runs -----

  lemma PrependPrepend(a: seq<Entry>, c: seq<Call>, b: seq<Entry>, d: seq<Call>, run: Run)
    ensures Prepend(a, c, Prepend(b, d, run)) == Prepend(a + b, c + d, run)
  {
    assert c + (d + run.calls) == (c + d) + run.calls;
    if run.result.Success? {
      assert a + (b + run.result.value) == (a + b) + run.result.value;
    }
  }

  lemma PrependNothing(run: Run)
    ensures Prepend([], [], run) == run
  {
    assert [] + run.calls == run.calls;
    if run.result.Success? {
      assert [] + run.result.value == run.result.value;
    }
  }

  lemma AfterPrefixesPrepend(pages: Pages, bucket: string, directory: string, page: Page, deep: bool,
                             e: seq<Entry>, c: seq<Call>, sub: Run)
    ensures AfterPrefixes(pages, bucket, directory, page, deep, Prepend(e, c, sub))
         == Prepend(e, c, AfterPrefixes(pages, bucket, directory, page, deep, sub))
  {
    if sub.result.Success? {
      var found := sub.result.value + FileEntries(directory, page.objects);
      assert (e + sub.result.value) + FileEntries(directory, page.objects) == e + found;
      if page.nextMarker != "" {
        PrependPrepend(e, c, found, sub.calls,
                       PagesFrom(pages, bucket, directory, page.nextMarker, deep, sub.fuel));
      }
    }
  }

  /** One turn of the page loop, after `entries` and `calls` so far: the request, then what follows its page. */
  lemma PageStep(pages: Pages, bucket: string, directory: string, marker: string, deep: bool, fuel: nat,
                 entries: seq<Entry>, calls: seq<Call>)
    requires fuel > 0
    ensures var call := ListObjects(bucket, Request(directory, marker));
      var run := Prepend(entries, calls, PagesFrom(pages, bucket, directory, marker, deep, fuel));
      if (bucket, Request(directory, marker)) !in pages then
        run == Run(calls + [call], fuel - 1, Failure(ProviderError(call)))
      else
        var page := pages[(bucket, Request(directory, marker))];
        run == Prepend(entries, calls + [call], AfterPrefixes(pages, bucket, directory, page, deep,
                                                              PrefixEntries(pages, bucket, page.prefixes, deep, fuel - 1)))
  {
    var request := Request(directory, marker);
    var call := ListObjects(bucket, request);
    if (bucket, request) in pages {
      var page := pages[(bucket, request)];
      var after := AfterPrefixes(pages, bucket, directory, page, deep,
                                 PrefixEntries(pages, bucket, page.prefixes, deep, fuel - 1));
      PrependPrepend(entries, calls, [], [call], after);
      assert entries + [] == entries;
    }
  }

  /** What follows a page's prefixes, after `entries` and `calls` so far: stop, finish, or go on to the next page. */
  lemma AfterStep(pages: Pages, bucket: string, directory: string, page: Page, deep: bool, sub: Run,
                  entries: seq<Entry>, calls: seq<Call>)
    ensures var run := Prepend(entries, calls, AfterPrefixes(pages, bucket, directory, page, deep, sub));
      match sub.result
      case Failure(e) => run == Run(calls + sub.calls, sub.fuel, Failure(e))
      case Success(dirs) =>
        var found := entries + dirs + FileEntries(directory, page.objects);
        if page.nextMarker == "" then run == Run(calls + sub.calls, sub.fuel, Success(found))
        else run == Prepend(found, calls + sub.calls, PagesFrom(pages, bucket, directory, page.nextMarker, deep, sub.fuel))
  {
    if sub.result.Success? {
      var dirs := sub.result.value;
      var files := FileEntries(directory, page.objects);
      assert entries + (dirs + files) == entries + dirs + files;
      if page.nextMarker != "" {
        PrependPrepend(entries, calls, dirs + files, sub.calls,
                       PagesFrom(pages, bucket, directory, page.nextMarker, deep, sub.fuel));
      }
    }
  }

  /** One turn of the prefix loop, after `entries` and `calls` so far. */
  lemma PrefixStep(pages: Pages, bucket: string, prefixes: seq<string>, i: nat, deep: bool, fuel: nat,
                   entries: seq<Entry>, calls: seq<Call>)
    requires i < |prefixes|
    ensures var run := Prepend(entries, calls, PrefixEntries(pages, bucket, prefixes[i..], deep, fuel));
      if !deep then
        run == Prepend(entries + [Dir(prefixes[i])], calls, PrefixEntries(pages, bucket, prefixes[i + 1..], deep, fuel))
      else
        var sub := ListDir(pages, bucket, prefixes[i], deep, fuel);
        match sub.result
        case Failure(e) => run == Run(calls + sub.calls, sub.fuel, Failure(e))
        case Success(below) =>
          run == Prepend(entries + [Dir(prefixes[i])] + below, calls + sub.calls,
                         PrefixEntries(pages, bucket, prefixes[i + 1..], deep, sub.fuel))
  {
    assert prefixes[i..][1..] == prefixes[i + 1..];
    if !deep {
      PrependPrepend(entries, calls, [Dir(prefixes[i])], [],
                     PrefixEntries(pages, bucket, prefixes[i + 1..], deep, fuel));
      assert calls + [] == calls;
    } else {
      var sub := ListDir(pages, bucket, prefixes[i], deep, fuel);
      if sub.result.Success? {
        var below := sub.result.value;
        PrependPrepend(entries, calls, [Dir(prefixes[i])] + below, sub.calls,
                       PrefixEntries(pages, bucket, prefixes[i + 1..], deep, sub.fuel));
        assert entries + ([Dir(prefixes[i])] + below) == entries + [Dir(prefixes[i])] + below;
      }
    }
  }

  // ----- Trimming -----

  /** Trimming twice is trimming once: a trimmed path keeps no trailing separator. */
  lemma TrimIdempotent(s: string)
    ensures TrimSeparators(TrimSeparators(s)) == TrimSeparators(s)
  {
  }

  // ----- File entries of one page -----

  /** The file entries of two runs of objects are those of each run, in order. */
  lemma {:induction false} FileEntriesAppend(directory: string, a: seq<ObjectInfo>, b: seq<ObjectInfo>)
    ensures FileEntries(directory, a + b) == FileEntries(directory, a) + FileEntries(directory, b)
    decreases |b|
  {
    if b == [] {
      assert a + b == a;
    } else {
      var b' := b[..|b| - 1];
      assert (a + b)[..|a + b| - 1] == a + b';
      assert (a + b)[|a + b| - 1] == b[|b| - 1];
      FileEntriesAppend(directory, a, b');
    }
  }

  /** Without the directory's marker among them, every object gives exactly one file entry, in order. */
  lemma {:induction false} FileEntriesUnmarked(directory: string, objects: seq<ObjectInfo>)
    requires forall j :: 0 <= j < |objects| ==> !IsMarker(directory, objects[j])
    ensures |FileEntries(directory, objects)| == |objects|
    ensures forall j :: 0 <= j < |objects| ==> FileEntries(directory, objects)[j] == FileOf(objects[j])
    decreases |objects|
  {
    if objects != [] {
      FileEntriesUnmarked(directory, objects[..|objects| - 1]);
    }
  }

  /** The marker object alone gives no entry; any other object gives its own. */
  lemma FileEntriesSingle(directory: string, o: ObjectInfo)
    ensures FileEntries(directory, [o]) == if IsMarker(directory, o) then [] else [FileOf(o)]
  {
    assert [o][..0] == [];
  }

  // ----- Shallow listings -----

  /** Without `deep`, the prefixes of a page become `dir` entries and no request is sent. */
  lemma {:induction false} ShallowPrefixes(pages: Pages, bucket: string, prefixes: seq<string>, fuel: nat)
    ensures PrefixEntries(pages, bucket, prefixes, false, fuel) == Run([], fuel, Success(Dirs(prefixes)))
    decreases |prefixes|
  {
    if prefixes != [] {
      ShallowPrefixes(pages, bucket, prefixes[1..], fuel);
    }
  }

  /**
   * The marker protocol: the first request for `directory` uses `marker`;
   * each later one uses the `nextMarker` of the page before it, and follows
   * only a page whose `nextMarker` is not empty.
   */
  ghost predicate Paginates(pages: Pages, bucket: string, directory: string, marker: string, calls: seq<Call>)
    decreases |calls|
  {
    calls == [] ||
    (calls[0] == ListObjects(bucket, Request(directory, marker)) &&
     (|calls| > 1 ==>
        Answered(pages, calls[0]) &&
        PageFor(pages, calls[0]).nextMarker != "" &&
        Paginates(pages, bucket, directory, PageFor(pages, calls[0]).nextMarker, calls[1..])))
  }

  /**
   * A shallow listing from `marker` follows the marker protocol, and fails
   * only when the budget is spent or the last request is refused.
   */
  lemma ShallowProtocol(pages: Pages, bucket: string, directory: string, marker: string, fuel: nat)
    ensures var r := PagesFrom(pages, bucket, directory, marker, false, fuel);
      && Paginates(pages, bucket, directory, marker, r.calls)
      && (r.result.Failure? ==>
            || (r.result.error == OutOfFuel && r.fuel == 0)
            || (|r.calls| > 0 && !Answered(pages, r.calls[|r.calls| - 1])
                && r.result.error == ProviderError(r.calls[|r.calls| - 1])))
  {
    ShallowPaginates(pages, bucket, directory, marker, fuel);
    ShallowFailure(pages, bucket, directory, marker, fuel);
  }

  lemma {:induction false} ShallowPaginates(pages: Pages, bucket: string, directory: string, marker: string, fuel: nat)
    ensures Paginates(pages, bucket, directory, marker, PagesFrom(pages, bucket, directory, marker, false, fuel).calls)
    decreases fuel
  {
    var r := PagesFrom(pages, bucket, directory, marker, false, fuel);
    var request := Request(directory, marker);
    if fuel > 0 && (bucket, request) in pages {
      var page := pages[(bucket, request)];
      assert PageFor(pages, ListObjects(bucket, request)) == page;
      ShallowStep(pages, bucket, directory, marker, fuel);
      if page.nextMarker != "" {
        var rest := PagesFrom(pages, bucket, directory, page.nextMarker, false, fuel - 1);
        ShallowPaginates(pages, bucket, directory, page.nextMarker, fuel - 1);
        assert r.calls == [ListObjects(bucket, request)] + rest.calls;
        assert r.calls[1..] == rest.calls;
      }
    }
  }

  lemma {:induction false} ShallowFailure(pages: Pages, bucket: string, directory: string, marker: string, fuel: nat)
    ensures var r := PagesFrom(pages, bucket, directory, marker, false, fuel);
      r.result.Failure? ==>
        || (r.result.error == OutOfFuel && r.fuel == 0)
        || (|r.calls| > 0 && !Answered(pages, r.calls[|r.calls| - 1])
            && r.result.error == ProviderError(r.calls[|r.calls| - 1]))
    decreases fuel
  {
    var r := PagesFrom(pages, bucket, directory, marker, false, fuel);
    var request := Request(directory, marker);
    if fuel > 0 && (bucket, request) in pages {
      var page := pages[(bucket, request)];
      ShallowStep(pages, bucket, directory, marker, fuel);
      if page.nextMarker != "" {
        var rest := PagesFrom(pages, bucket, directory, page.nextMarker, false, fuel - 1);
        ShallowFailure(pages, bucket, directory, page.nextMarker, fuel - 1);
        assert r.calls == [ListObjects(bucket, request)] + rest.calls;
        if |rest.calls| > 0 {
          assert r.calls[|r.calls| - 1] == rest.calls[|rest.calls| - 1];
        }
      }
    }
  }

  /**
   * A shallow listing from `marker` succeeds only once a page comes back with
   * an empty `nextMarker`, and then lists each fetched page's `dir` entries
   * followed by its `file` entries, page by page.
   */
  lemma {:induction false} ShallowPages(pages: Pages, bucket: string, directory: string, marker: string, fuel: nat)
    ensures var r := PagesFrom(pages, bucket, directory, marker, false, fuel);
      r.result.Success? ==>
        && |r.calls| > 0
        && Answered(pages, r.calls[|r.calls| - 1])
        && PageFor(pages, r.calls[|r.calls| - 1]).nextMarker == ""
        && r.result.value == PagesEntries(directory, Fetched(pages, r.calls))
    decreases fuel
  {
    var r := PagesFrom(pages, bucket, directory, marker, false, fuel);
    var request := Request(directory, marker);
    if fuel > 0 && (bucket, request) in pages {
      var call := ListObjects(bucket, request);
      var page := pages[(bucket, request)];
      assert PageFor(pages, call) == page;
      ShallowStep(pages, bucket, directory, marker, fuel);
      if page.nextMarker == "" {
        assert Fetched(pages, r.calls) == [page];
        assert PagesEntries(directory, [page]) == PageEntries(directory, page) + PagesEntries(directory, []);
      } else if r.result.Success? {
        var rest := PagesFrom(pages, bucket, directory, page.nextMarker, false, fuel - 1);
        ShallowPages(pages, bucket, directory, page.nextMarker, fuel - 1);
        assert r.calls == [call] + rest.calls;
        assert Fetched(pages, r.calls) == [page] + Fetched(pages, rest.calls);
        assert r.calls[|r.calls| - 1] == rest.calls[|rest.calls| - 1];
      }
    }
  }

  /** One answered page of a shallow listing: its entries, then the next page unless the marker is empty. */
  lemma ShallowStep(pages: Pages, bucket: string, directory: string, marker: string, fuel: nat)
    requires fuel > 0 && (bucket, Request(directory, marker)) in pages
    ensures var call := ListObjects(bucket, Request(directory, marker));
      var page := pages[(bucket, Request(directory, marker))];
      var r := PagesFrom(pages, bucket, directory, marker, false, fuel);
      if page.nextMarker == "" then r == Run([call], fuel - 1, Success(PageEntries(directory, page)))
      else r == Prepend(PageEntries(directory, page), [call], PagesFrom(pages, bucket, directory, page.nextMarker, false, fuel - 1))
  {
    var call := ListObjects(bucket, Request(directory, marker));
    var page := pages[(bucket, Request(directory, marker))];
    var r := PagesFrom(pages, bucket, directory, marker, false, fuel);
    var sub := Run([], fuel - 1, Success(Dirs(page.prefixes)));
    PrependNothing(r);
    PageStep(pages, bucket, directory, marker, false, fuel, [], []);
    ShallowPrefixes(pages, bucket, page.prefixes, fuel - 1);
    assert [] + [call] == [call] && [call] + [] == [call];
    assert r == Prepend([], [call], AfterPrefixes(pages, bucket, directory, page, false, sub));
    AfterStep(pages, bucket, directory, page, false, sub, [], [call]);
    assert [] + Dirs(page.prefixes) + FileEntries(directory, page.objects) == PageEntries(directory, page);
  }

  /**
   * `listContents($path, false)`: every request asks for the trimmed path
   * plus `/`, the first one with an empty marker, and a completed listing is
   * each fetched page's `dir` entries then its `file` entries, none of which is
   * the directory's own zero-byte marker.
   */
  lemma ShallowListing(pages: Pages, bucket: string, path: string, fuel: nat)
    ensures var r := ListDir(pages, bucket, path, false, fuel);
      && Paginates(pages, bucket, TrimSeparators(path), "", r.calls)
      && (r.result.Success? ==>
            && |r.calls| > 0
            && PageFor(pages, r.calls[|r.calls| - 1]).nextMarker == ""
            && r.result.value == PagesEntries(TrimSeparators(path), Fetched(pages, r.calls))
            && forall i :: 0 <= i < |r.result.value| && r.result.value[i].File? ==>
                 !(r.result.value[i].size == 0 && r.result.value[i].path == TrimSeparators(path) + "/"))
  {
    var directory := TrimSeparators(path);
    ShallowProtocol(pages, bucket, directory, "", fuel);
    ShallowPages(pages, bucket, directory, "", fuel);
    var r := ListDir(pages, bucket, path, false, fuel);
    if r.result.Success? {
      PagesEntriesSkipMarker(directory, Fetched(pages, r.calls));
    }
  }

  /** No `file` entry of a shallow listing's pages is the directory's zero-byte marker. */
  lemma {:induction false} PagesEntriesSkipMarker(directory: string, ps: seq<Page>)
    ensures forall i :: 0 <= i < |PagesEntries(directory, ps)| && PagesEntries(directory, ps)[i].File? ==>
      !(PagesEntries(directory, ps)[i].size == 0 && PagesEntries(directory, ps)[i].path == directory + "/")
    decreases |ps|
  {
    if ps != [] {
      PagesEntriesSkipMarker(directory, ps[1..]);
      DirsAreDirs(ps[0].prefixes);
      var head := PageEntries(directory, ps[0]);
      var tail := PagesEntries(directory, ps[1..]);
      var all: seq<Entry> := head + tail;
      forall i | 0 <= i < |all| && all[i].File?
        ensures !(all[i].size == 0 && all[i].path == directory + "/")
      {
        if i >= |head| {
          assert all[i] == tail[i - |head|];
        } else if i >= |Dirs(ps[0].prefixes)| {
          assert head[i] == FileEntries(directory, ps[0].objects)[i - |Dirs(ps[0].prefixes)|];
        }
      }
    }
  }

  /** `Dirs` makes one `dir` entry per prefix, in order. */
  lemma {:induction false} DirsAreDirs(prefixes: seq<string>)
    ensures |Dirs(prefixes)| == |prefixes|
    ensures forall i :: 0 <= i < |prefixes| ==> Dirs(prefixes)[i] == Dir(prefixes[i])
    decreases |prefixes|
  {
    if prefixes != [] {
      DirsAreDirs(prefixes[1..]);
    }
  }

  // ----- Page order -----

  /**
   * A completed listing from `marker`, shallow or deep: one request with
   * `marker`, then the requests of the page's prefix listings. Its entries are
   * that page's `dir` entries (each with its subtree when `deep`), then its
   * `file` entries. When the page's `nextMarker` is empty nothing follows;
   * otherwise the completed listing from that `nextMarker` follows.
   */
  lemma PageOrder(pages: Pages, bucket: string, directory: string, marker: string, deep: bool, fuel: nat)
    requires PagesFrom(pages, bucket, directory, marker, deep, fuel).result.Success?
    ensures fuel > 0 && (bucket, Request(directory, marker)) in pages
    ensures PrefixEntries(pages, bucket, pages[(bucket, Request(directory, marker))].prefixes, deep, fuel - 1).result.Success?
    ensures var call := ListObjects(bucket, Request(directory, marker));
      var page := pages[(bucket, Request(directory, marker))];
      var sub := PrefixEntries(pages, bucket, page.prefixes, deep, fuel - 1);
      var first := sub.result.value + FileEntries(directory, page.objects);
      var r := PagesFrom(pages, bucket, directory, marker, deep, fuel);
      var rest := PagesFrom(pages, bucket, directory, page.nextMarker, deep, sub.fuel);
      && (page.nextMarker == "" ==>
            r.result.value == first && r.calls == [call] + sub.calls)
      && (page.nextMarker != "" ==>
            && rest.result.Success?
            && r.result.value == first + rest.result.value
            && r.calls == [call] + sub.calls + rest.calls)
  {
    var r := PagesFrom(pages, bucket, directory, marker, deep, fuel);
    var request := Request(directory, marker);
    var call := ListObjects(bucket, request);
    assert fuel > 0 && (bucket, request) in pages;
    var page := pages[(bucket, request)];
    var sub := PrefixEntries(pages, bucket, page.prefixes, deep, fuel - 1);
    assert r == Prepend([], [call], AfterPrefixes(pages, bucket, directory, page, deep, sub));
    assert sub.result.Success?;
    var first := sub.result.value + FileEntries(directory, page.objects);
    if page.nextMarker == "" {
      assert r.result.value == [] + first;
    } else {
      var rest := PagesFrom(pages, bucket, directory, page.nextMarker, deep, sub.fuel);
      assert r.result.value == [] + (first + rest.result.value);
      assert r.calls == [call] + (sub.calls + rest.calls);
    }
  }

  // ----- Re-trimmed common prefixes -----

  /** A bucket whose listing of `a` returns the one common prefix `a//`, as a key `a//b` makes it do. */
  function DoubleSlashPages(bucket: string): Pages
  {
    map[(bucket, Request("a", "")) := Page(["a//"], [], "")]
  }

  lemma TrimDoubleSlash()
    ensures TrimSeparators("a") == "a"
    ensures TrimSeparators("a//") == "a"
    ensures TrimSeparators("x/a\\/") == "x/a"
  {
    assert "a//"[..2] == "a/" && "a/"[..1] == "a";
    assert "x/a\\/"[..4] == "x/a\\" && "x/a\\"[..3] == "x/a";
  }

  /**
   * As written, the deep listing of `a` recurses into the common prefix
   * `a//`, which trims back to `a`: every request it sends is the first one
   * again, and no budget is large enough for it to complete.
   */
  lemma {:induction false} DoubleSlashLoops(bucket: string, fuel: nat)
    ensures ListDir(DoubleSlashPages(bucket), bucket, "a", true, fuel).result == Failure(OutOfFuel)
    ensures forall k :: 0 <= k < |ListDir(DoubleSlashPages(bucket), bucket, "a", true, fuel).calls| ==>
      ListDir(DoubleSlashPages(bucket), bucket, "a", true, fuel).calls[k] == ListObjects(bucket, Request("a", ""))
    decreases fuel
  {
    var pages := DoubleSlashPages(bucket);
    var call := ListObjects(bucket, Request("a", ""));
    TrimDoubleSlash();
    if fuel > 0 {
      DoubleSlashLoops(bucket, fuel - 1);
      assert (bucket, Request("a", "")) in pages;
      var page := pages[(bucket, Request("a", ""))];
      var sub := ListDir(pages, bucket, "a//", true, fuel - 1);
      assert sub == ListDir(pages, bucket, "a", true, fuel - 1);
      assert sub.result.Failure?;
      assert PrefixEntries(pages, bucket, page.prefixes, true, fuel - 1) == sub;
      assert AfterPrefixes(pages, bucket, "a", page, true, sub) == sub;
      var r := ListDir(pages, bucket, "a", true, fuel);
      assert r == PagesFrom(pages, bucket, "a", "", true, fuel);
      assert r == Prepend([], [call], sub);
      forall k | 0 < k < |r.calls|
        ensures r.calls[k] == call
      {
        assert r.calls[k] == sub.calls[k - 1];
      }
    }
  }

  /**
   * As written, the listing of a returned common prefix asks for a different
   * prefix when the common prefix ends in more than one separator: `a//` is
   * listed as `a/`, and `x/a\/` (returned for a key `x/a\/b`) as `x/a/`.
   */
  lemma ReTrimmedRequests(marker: string)
    ensures Request(TrimSeparators("a//"), marker).prefix == "a/" != "a//"
    ensures Request(TrimSeparators("x/a\\/"), marker).prefix == "x/a/" != "x/a\\/"
  {
    TrimDoubleSlash();
  }

  /**
   * A bucket whose listing of `x` returns the common prefix `x/a\/`, and whose
   * listing of `x/a` holds the one object `x/a/c`.
   */
  function BackslashPages(bucket: string): Pages
  {
    map[(bucket, Request("x", "")) := Page(["x/a\\/"], [], ""),
        (bucket, Request("x/a", "")) := Page([], [ObjectInfo("x/a/c", "t", 1)], "")]
  }

  /**
   * As written, the deep listing of `x` puts the listing of the other
   * directory `x/a/` under the `dir` entry `x/a\/`: the file `x/a/c`, whose
   * key does not start with that prefix, follows it.
   */
  lemma BackslashSpliced(bucket: string)
    ensures var r := ListDir(BackslashPages(bucket), bucket, "x", true, 2);
      && r.result == Success([Dir("x/a\\/"), File("x/a/c", "t", 1)])
      && r.calls == [ListObjects(bucket, Request("x", "")), ListObjects(bucket, Request("x/a", ""))]
    ensures !("x/a\\/" <= "x/a/c")
  {
    var pages := BackslashPages(bucket);
    TrimDoubleSlash();
    assert "x/a\\/"[3] != "x/a/c"[3];
    var inner := ListDir(pages, bucket, "x/a\\/", true, 1);
    assert inner == ListDir(pages, bucket, "x/a", true, 1);
    assert (bucket, Request("x/a", "")) in pages;
    assert FileEntries("x/a", [ObjectInfo("x/a/c", "t", 1)]) == [File("x/a/c", "t", 1)] by {
      assert "x/a/c" != "x/a" + "/";
    }
    assert inner.result == Success([File("x/a/c", "t", 1)]);
    assert inner.calls == [ListObjects(bucket, Request("x/a", ""))];
    assert (bucket, Request("x", "")) in pages;
    assert inner.fuel == 0;
    assert ["x/a\\/"][1..] == [];
    var sub := PrefixEntries(pages, bucket, ["x/a\\/"], true, 1);
    assert sub == Prepend([Dir("x/a\\/")] + [File("x/a/c", "t", 1)], inner.calls, Run([], 0, Success([])));
    assert [Dir("x/a\\/")] + [File("x/a/c", "t", 1)] + [] == [Dir("x/a\\/"), File("x/a/c", "t", 1)];
    assert sub.result == Success([Dir("x/a\\/"), File("x/a/c", "t", 1)]);
    assert sub.calls == inner.calls;
    var page := pages[(bucket, Request("x", ""))];
    var after := AfterPrefixes(pages, bucket, "x", page, true, sub);
    assert FileEntries("x", page.objects) == [];
    assert after.result == Success([Dir("x/a\\/"), File("x/a/c", "t", 1)] + []);
    assert after.calls == sub.calls;
    assert TrimSeparators("x") == "x";
    var r := ListDir(pages, bucket, "x", true, 2);
    assert r == Prepend([], [ListObjects(bucket, Request("x", ""))], after);
    assert [] + ([Dir("x/a\\/"), File("x/a/c", "t", 1)] + []) == [Dir("x/a\\/"), File("x/a/c", "t", 1)];
  }

  /** The directory a returned common prefix stands for: the prefix without only its final delimiter. */
  function PrefixDirectory(prefix: string): (d: string)
    requires |prefix| > 0 && prefix[|prefix| - 1] == '/'
    ensures |d| + 1 == |prefix| && d <= prefix
  {
    prefix[..|prefix| - 1]
  }

  /** Listing `PrefixDirectory(prefix)` asks the provider for exactly the common prefix it returned. */
  lemma PrefixDirectoryRequest(prefix: string, marker: string)
    requires |prefix| > 0 && prefix[|prefix| - 1] == '/'
    ensures Request(PrefixDirectory(prefix), marker) == ListRequest(MaxKeys, prefix, Delimiter, marker)
  {
    assert PrefixDirectory(prefix) + "/" == prefix;
  }

  // ----- Request options, shallow or deep -----

  /** The options every listing request carries: max-keys 1000, delimiter `/`, a trimmed directory plus `/`. */
  predicate IsDirectoryRequest(request: ListRequest)
  {
    && request.maxKeys == 1000
    && request.delimiter == "/"
    && |request.prefix| > 0
    && request.prefix[|request.prefix| - 1] == '/'
    && TrimSeparators(request.prefix[..|request.prefix| - 1]) == request.prefix[..|request.prefix| - 1]
  }

  ghost predicate DirectoryRequests(bucket: string, calls: seq<Call>)
  {
    forall i :: 0 <= i < |calls| ==>
      calls[i].ListObjects? && calls[i].bucket == bucket && IsDirectoryRequest(calls[i].request)
  }

  lemma DirectoryRequestsAppend(bucket: string, a: seq<Call>, b: seq<Call>)
    requires DirectoryRequests(bucket, a) && DirectoryRequests(bucket, b)
    ensures DirectoryRequests(bucket, a + b)
  {
    forall i | 0 <= i < |a + b|
      ensures (a + b)[i].ListObjects? && (a + b)[i].bucket == bucket && IsDirectoryRequest((a + b)[i].request)
    {
      if i >= |a| {
        assert (a + b)[i] == b[i - |a|];
      }
    }
  }

  lemma RequestIsDirectoryRequest(directory: string, marker: string)
    requires TrimSeparators(directory) == directory
    ensures IsDirectoryRequest(Request(directory, marker))
  {
    assert (directory + "/")[..|directory|] == directory;
  }

  /** Every request of a listing, shallow or deep, is a `listObjects` on the adapter's bucket with the directory options. */
  lemma {:induction false} ListDirRequests(pages: Pages, bucket: string, path: string, deep: bool, fuel: nat)
    ensures DirectoryRequests(bucket, ListDir(pages, bucket, path, deep, fuel).calls)
    decreases fuel, 2, 0
  {
    TrimIdempotent(path);
    PagesFromRequests(pages, bucket, TrimSeparators(path), "", deep, fuel);
  }

  lemma {:induction false} PagesFromRequests(pages: Pages, bucket: string, directory: string, marker: string,
                                             deep: bool, fuel: nat)
    requires TrimSeparators(directory) == directory
    ensures DirectoryRequests(bucket, PagesFrom(pages, bucket, directory, marker, deep, fuel).calls)
    decreases fuel, 1, 0
  {
    if fuel > 0 {
      var request := Request(directory, marker);
      RequestIsDirectoryRequest(directory, marker);
      var call := ListObjects(bucket, request);
      if (bucket, request) in pages {
        var page := pages[(bucket, request)];
        var sub := PrefixEntries(pages, bucket, page.prefixes, deep, fuel - 1);
        PrefixEntriesRequests(pages, bucket, page.prefixes, deep, fuel - 1);
        AfterPrefixesRequests(pages, bucket, directory, page, deep, sub);
        DirectoryRequestsAppend(bucket, [call], AfterPrefixes(pages, bucket, directory, page, deep, sub).calls);
      }
    }
  }

  lemma {:induction false} PrefixEntriesRequests(pages: Pages, bucket: string, prefixes: seq<string>,
                                                 deep: bool, fuel: nat)
    ensures DirectoryRequests(bucket, PrefixEntries(pages, bucket, prefixes, deep, fuel).calls)
    decreases fuel, 3, |prefixes|
  {
    if prefixes != [] {
      if !deep {
        PrefixEntriesRequests(pages, bucket, prefixes[1..], deep, fuel);
        assert PrefixEntries(pages, bucket, prefixes, deep, fuel).calls
            == [] + PrefixEntries(pages, bucket, prefixes[1..], deep, fuel).calls;
      } else {
        var sub := ListDir(pages, bucket, prefixes[0], deep, fuel);
        ListDirRequests(pages, bucket, prefixes[0], deep, fuel);
        if sub.result.Success? {
          PrefixEntriesRequests(pages, bucket, prefixes[1..], deep, sub.fuel);
          DirectoryRequestsAppend(bucket, sub.calls, PrefixEntries(pages, bucket, prefixes[1..], deep, sub.fuel).calls);
        }
      }
    }
  }

  lemma {:induction false} AfterPrefixesRequests(pages: Pages, bucket: string, directory: string, page: Page,
                                                 deep: bool, sub: Run)
    requires TrimSeparators(directory) == directory
    requires DirectoryRequests(bucket, sub.calls)
    ensures DirectoryRequests(bucket, AfterPrefixes(pages, bucket, directory, page, deep, sub).calls)
    decreases sub.fuel, 2, 0
  {
    if sub.result.Success? && page.nextMarker != "" {
      PagesFromRequests(pages, bucket, directory, page.nextMarker, deep, sub.fuel);
      DirectoryRequestsAppend(bucket, sub.calls,
                              PagesFrom(pages, bucket, directory, page.nextMarker, deep, sub.fuel).calls);
    }
  }

  /** The first request of any listing with budget left is for the trimmed path with an empty marker. */
  lemma ListDirFirstRequest(pages: Pages, bucket: string, path: string, deep: bool, fuel: nat)
    requires fuel > 0
    ensures var r := ListDir(pages, bucket, path, deep, fuel);
      |r.calls| > 0 && r.calls[0] == ListObjects(bucket, ListRequest(1000, TrimSeparators(path) + "/", "/", ""))
  {
  }

  // ----- The request budget -----

  function Bump(run: Run, extra: nat): Run
  {
    Run(run.calls, run.fuel + extra, run.result)
  }

  /** A listing that completes within `fuel` requests sends the same requests and lists the same entries under any larger budget. */
  lemma {:induction false} ListDirFuel(pages: Pages, bucket: string, path: string, deep: bool, fuel: nat, extra: nat)
    requires ListDir(pages, bucket, path, deep, fuel).result.Success?
    ensures ListDir(pages, bucket, path, deep, fuel + extra) == Bump(ListDir(pages, bucket, path, deep, fuel), extra)
    decreases fuel, 2, 0
  {
    PagesFromFuel(pages, bucket, TrimSeparators(path), "", deep, fuel, extra);
  }

  lemma {:induction false} PagesFromFuel(pages: Pages, bucket: string, directory: string, marker: string,
                                         deep: bool, fuel: nat, extra: nat)
    requires PagesFrom(pages, bucket, directory, marker, deep, fuel).result.Success?
    ensures PagesFrom(pages, bucket, directory, marker, deep, fuel + extra)
         == Bump(PagesFrom(pages, bucket, directory, marker, deep, fuel), extra)
    decreases fuel, 1, 0
  {
    var request := Request(directory, marker);
    var page := pages[(bucket, request)];
    var sub := PrefixEntries(pages, bucket, page.prefixes, deep, fuel - 1);
    assert sub.result.Success?;
    PrefixEntriesFuel(pages, bucket, page.prefixes, deep, fuel - 1, extra);
    assert PrefixEntries(pages, bucket, page.prefixes, deep, fuel + extra - 1) == Bump(sub, extra);
    AfterPrefixesFuel(pages, bucket, directory, page, deep, sub, extra);
  }

  lemma {:induction false} PrefixEntriesFuel(pages: Pages, bucket: string, prefixes: seq<string>,
                                             deep: bool, fuel: nat, extra: nat)
    requires PrefixEntries(pages, bucket, prefixes, deep, fuel).result.Success?
    ensures PrefixEntries(pages, bucket, prefixes, deep, fuel + extra)
         == Bump(PrefixEntries(pages, bucket, prefixes, deep, fuel), extra)
    decreases fuel, 3, |prefixes|
  {
    if prefixes != [] {
      if !deep {
        PrefixEntriesFuel(pages, bucket, prefixes[1..], deep, fuel, extra);
      } else {
        var sub := ListDir(pages, bucket, prefixes[0], deep, fuel);
        ListDirFuel(pages, bucket, prefixes[0], deep, fuel, extra);
        PrefixEntriesFuel(pages, bucket, prefixes[1..], deep, sub.fuel, extra);
      }
    }
  }

  lemma {:induction false} AfterPrefixesFuel(pages: Pages, bucket: string, directory: string, page: Page,
                                             deep: bool, sub: Run, extra: nat)
    requires AfterPrefixes(pages, bucket, directory, page, deep, sub).result.Success?
    ensures AfterPrefixes(pages, bucket, directory, page, deep, Bump(sub, extra))
         == Bump(AfterPrefixes(pages, bucket, directory, page, deep, sub), extra)
    decreases sub.fuel, 2, 0
  {
    if sub.result.Success? && page.nextMarker != "" {
      PagesFromFuel(pages, bucket, directory, page.nextMarker, deep, sub.fuel, extra);
    }
  }

  // ----- Deep listings: each subtree follows its directory -----

  /** `result` is the successful listing of `entries[i]`'s path and stands right after index `i`. */
  predicate Follows(entries: seq<Entry>, i: int, result: Result<seq<Entry>>)
  {
    && 0 <= i < |entries|
    && result.Success?
    && i + 1 + |result.value| <= |entries|
    && entries[i + 1 .. i + 1 + |result.value|] == result.value
  }

  /** Every `dir` entry is immediately followed by the complete deep listing of its path. */
  ghost predicate Spliced(pages: Pages, bucket: string, entries: seq<Entry>)
  {
    forall i :: 0 <= i < |entries| && entries[i].Dir? ==>
      exists fuel: nat :: Follows(entries, i, ListDir(pages, bucket, entries[i].path, true, fuel).result)
  }

  /** A subtree that follows entry `i` still follows it after entries are added at the front or at the back. */
  lemma FollowsShift(front: seq<Entry>, entries: seq<Entry>, back: seq<Entry>, i: int, result: Result<seq<Entry>>)
    requires Follows(entries, i, result)
    ensures Follows(front + entries + back, |front| + i, result)
  {
    var all := front + entries + back;
    var n := |result.value|;
    assert all[|front| + i + 1 .. |front| + i + 1 + n] == entries[i + 1 .. i + 1 + n];
  }

  lemma SplicedAppend(pages: Pages, bucket: string, a: seq<Entry>, b: seq<Entry>)
    requires Spliced(pages, bucket, a) && Spliced(pages, bucket, b)
    ensures Spliced(pages, bucket, a + b)
  {
    var ab := a + b;
    forall i | 0 <= i < |ab| && ab[i].Dir?
      ensures exists fuel: nat :: Follows(ab, i, ListDir(pages, bucket, ab[i].path, true, fuel).result)
    {
      if i < |a| {
        assert ab[i] == a[i];
        var fuel: nat :| Follows(a, i, ListDir(pages, bucket, a[i].path, true, fuel).result);
        FollowsShift([], a, b, i, ListDir(pages, bucket, a[i].path, true, fuel).result);
        assert [] + a + b == ab;
      } else {
        var j := i - |a|;
        assert ab[i] == b[j];
        var fuel: nat :| Follows(b, j, ListDir(pages, bucket, b[j].path, true, fuel).result);
        FollowsShift(a, b, [], j, ListDir(pages, bucket, b[j].path, true, fuel).result);
        assert a + b + [] == ab;
      }
    }
  }

  lemma SplicedCons(pages: Pages, bucket: string, path: string, below: seq<Entry>, fuel: nat)
    requires ListDir(pages, bucket, path, true, fuel).result == Success(below)
    requires Spliced(pages, bucket, below)
    ensures Spliced(pages, bucket, [Dir(path)] + below)
  {
    var all := [Dir(path)] + below;
    forall i | 0 <= i < |all| && all[i].Dir?
      ensures exists f: nat :: Follows(all, i, ListDir(pages, bucket, all[i].path, true, f).result)
    {
      if i == 0 {
        assert all[1 .. 1 + |below|] == below;
        assert Follows(all, 0, ListDir(pages, bucket, all[0].path, true, fuel).result);
      } else {
        var j := i - 1;
        assert all[i] == below[j];
        var f: nat :| Follows(below, j, ListDir(pages, bucket, below[j].path, true, f).result);
        FollowsShift([Dir(path)], below, [], j, ListDir(pages, bucket, below[j].path, true, f).result);
        assert [Dir(path)] + below + [] == all;
      }
    }
  }

  /**
   * `listContents($path, true)`: in a completed deep listing, every `dir`
   * entry is followed immediately by the complete deep listing of that prefix.
   */
  lemma {:induction false} ListDirSpliced(pages: Pages, bucket: string, path: string, fuel: nat)
    requires ListDir(pages, bucket, path, true, fuel).result.Success?
    ensures Spliced(pages, bucket, ListDir(pages, bucket, path, true, fuel).result.value)
    decreases fuel, 2, 0
  {
    PagesFromSpliced(pages, bucket, TrimSeparators(path), "", fuel);
  }

  lemma {:induction false} PagesFromSpliced(pages: Pages, bucket: string, directory: string, marker: string, fuel: nat)
    requires PagesFrom(pages, bucket, directory, marker, true, fuel).result.Success?
    ensures Spliced(pages, bucket, PagesFrom(pages, bucket, directory, marker, true, fuel).result.value)
    decreases fuel, 1, 0
  {
    var r := PagesFrom(pages, bucket, directory, marker, true, fuel);
    var request := Request(directory, marker);
    assert fuel > 0 && (bucket, request) in pages;
    var page := pages[(bucket, request)];
    var sub := PrefixEntries(pages, bucket, page.prefixes, true, fuel - 1);
    var after := AfterPrefixes(pages, bucket, directory, page, true, sub);
    assert r == Prepend([], [ListObjects(bucket, request)], after);
    assert sub.result.Success?;
    PrefixEntriesSpliced(pages, bucket, page.prefixes, fuel - 1);
    AfterPrefixesSpliced(pages, bucket, directory, page, sub);
    assert r.result.value == [] + after.result.value == after.result.value;
  }

  lemma {:induction false} PrefixEntriesSpliced(pages: Pages, bucket: string, prefixes: seq<string>, fuel: nat)
    requires PrefixEntries(pages, bucket, prefixes, true, fuel).result.Success?
    ensures Spliced(pages, bucket, PrefixEntries(pages, bucket, prefixes, true, fuel).result.value)
    decreases fuel, 3, |prefixes|
  {
    if prefixes != [] {
      var sub := ListDir(pages, bucket, prefixes[0], true, fuel);
      assert sub.result.Success?;
      var below := sub.result.value;
      ListDirSpliced(pages, bucket, prefixes[0], fuel);
      SplicedCons(pages, bucket, prefixes[0], below, fuel);
      var rest := PrefixEntries(pages, bucket, prefixes[1..], true, sub.fuel);
      PrefixEntriesSpliced(pages, bucket, prefixes[1..], sub.fuel);
      SplicedAppend(pages, bucket, [Dir(prefixes[0])] + below, rest.result.value);
    }
  }

  lemma {:induction false} AfterPrefixesSpliced(pages: Pages, bucket: string, directory: string, page: Page, sub: Run)
    requires sub.result.Success? && Spliced(pages, bucket, sub.result.value)
    requires AfterPrefixes(pages, bucket, directory, page, true, sub).result.Success?
    ensures Spliced(pages, bucket, AfterPrefixes(pages, bucket, directory, page, true, sub).result.value)
    decreases sub.fuel, 2, 0
  {
    var files := FileEntries(directory, page.objects);
    var found := sub.result.value + files;
    SplicedAppend(pages, bucket, sub.result.value, files);
    if page.nextMarker != "" {
      PagesFromSpliced(pages, bucket, directory, page.nextMarker, sub.fuel);
      SplicedAppend(pages, bucket, found,
                    PagesFrom(pages, bucket, directory, page.nextMarker, true, sub.fuel).result.value);
    }
  }
}
