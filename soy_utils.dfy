/** The template index behind the inline editor: a per-file cache of template tables, checked
    against the change tracker and the file's modification time, the sweep that brings it up
    to date over a list of files, and the two exported queries built on it. */
module SoyUtils {

  import opened Wrappers
  import opened JsText
  import opened BlockEnd
  import opened Scanner
  import opened Ranges

  // ---------------------------------------------------------------------------------------
  // The cache check

  /** How the promise of `_shouldGetFromCache` settles: with `true` (serve the cached table),
      with a falsy value (read the file again), or rejected (the `stat` call failed). */
  datatype Decision = UseCache | Rebuild | Reject

  /** `_shouldGetFromCache`, given what it consults: whether the tracker reports the path
      changed, the timestamp of the cached table if there is one, whether an open document
      for the path is dirty, and the modification time `stat` reports (None when it fails).
      A cached table is served when nothing changed, or when the file changed but is not
      dirty and its modification time still equals the cached one; the call is rejected
      exactly when it had to ask `stat` and `stat` failed; otherwise the file is read again. */
  function ShouldGetFromCache(isChanged: bool, cachedTimestamp: Option<int>, openDirty: bool,
                              mtime: Option<int>): (d: Decision)
    ensures d == UseCache <==>
      cachedTimestamp.Some? && (!isChanged || (!openDirty && mtime == Some(cachedTimestamp.value)))
    ensures d == Reject <==> isChanged && cachedTimestamp.Some? && !openDirty && mtime.None?
  {
    if isChanged && cachedTimestamp.Some? then
      if openDirty then Rebuild
      else
        match mtime
        case None => Reject
        case Some(t) => if cachedTimestamp.value == t then UseCache else Rebuild
    else if !isChanged && cachedTimestamp.Some? then UseCache
    else Rebuild
  }

  // ---------------------------------------------------------------------------------------
  // The host as one query sees it

  /** A document as the document manager hands it out: its text and the modification time of
      the file it was read from. */
  datatype Document = Document(text: string, diskTimestamp: int)

  /** The host services consulted during one query, as a snapshot: the documents
      `getDocumentForPath` can produce (a path outside the map fails), the paths whose open
      document is dirty, and the modification times `stat` reports (a path outside the map
      is a `stat` error). */
  datatype Host = Host(documents: map<string, Document>, openDirty: set<string>, mtimes: map<string, int>)

  /** `fileInfo.SOYUtils`: the table scanned from a file and the timestamp of the document it
      was scanned from. */
  datatype Cached = Cached(functions: TemplateTable, timestamp: int)

  /** What `_getTemplatesForFile` resolves with: the file, the document when it was just read
      (None, the source's `undefined`, when the table came from the cache) and the table. */
  datatype DocEntry = DocEntry(path: string, doc: Option<Document>, functions: TemplateTable)

  /** The records the cache holds, in any file and under any name. */
  function CachedRecords(cache: map<string, Cached>): set<TemplateRecord> {
    set p, r | p in cache && r in Records(cache[p].functions) :: r
  }

  /** The records a list of doc entries holds. */
  function EntryRecords(es: seq<DocEntry>): set<TemplateRecord> {
    set e, r | e in es && r in Records(e.functions) :: r
  }

  /** The records `cache` files under exactly `name`, in any file. */
  function NamedRecords(cache: map<string, Cached>, name: string): set<TemplateRecord> {
    set p, r | p in cache && name in cache[p].functions && r in cache[p].functions[name] :: r
  }

  /** `t` is the very table `base` caches for `path`. */
  predicate Inherited(t: TemplateTable, path: string, base: map<string, Cached>) {
    path in base && t == base[path].functions
  }

  // ---------------------------------------------------------------------------------------
  // The sweep as values: what the cache and the doc entries hold, records left out

  /** A cached table as offsets: name to marker offsets, and the timestamp. */
  datatype Summary = Summary(index: map<string, seq<nat>>, timestamp: int)

  /** A doc entry as offsets. */
  datatype Listing = Listing(path: string, doc: Option<Document>, index: map<string, seq<nat>>)

  function Summarise(cache: map<string, Cached>): map<string, Summary> {
    map p | p in cache :: Summary(StartsTable(cache[p].functions), cache[p].timestamp)
  }

  function View(e: DocEntry): Listing {
    Listing(e.path, e.doc, StartsTable(e.functions))
  }

  function Views(es: seq<DocEntry>): (r: seq<Listing>)
    ensures |r| == |es|
  {
    if es == [] then [] else Views(es[..|es| - 1]) + [View(es[|es| - 1])]
  }

  function OptView(r: Option<DocEntry>): Option<Listing> {
    match r
    case None => None
    case Some(e) => Some(View(e))
  }

  /** The elements of an option, as a list of at most one. */
  function Items<T>(o: Option<T>): (r: seq<T>)
    ensures |r| <= 1
  {
    match o
    case None => []
    case Some(x) => [x]
  }

  /** The cache check for `path` against a cache summary and the host. */
  function Decide(sum: map<string, Summary>, changed: set<string>, path: string, host: Host): Decision {
    ShouldGetFromCache(path in changed,
                       if path in sum then Some(sum[path].timestamp) else None,
                       path in host.openDirty,
                       if path in host.mtimes then Some(host.mtimes[path]) else None)
  }

  /** `_getTemplatesForFile` for one path, as values: the new cache summary and the listing it
      resolves with, or None when it rejects. A cache hit lists the cached offsets without a
      document; a rebuild lists and caches the index of the document's text under the
      document's timestamp; a rejection or a failed read leaves the cache alone; no other
      path's entry changes. */
  function Visit(sum: map<string, Summary>, changed: set<string>, path: string, host: Host)
    : (r: (map<string, Summary>, Option<Listing>))
    ensures r.1.None? ==> r.0 == sum
    ensures r.1.Some? ==> r.1.value.path == path
    ensures r.1.Some? && r.1.value.doc.None? ==>
      Decide(sum, changed, path, host) == UseCache && r.0 == sum && r.1.value.index == sum[path].index
    ensures r.1.Some? && r.1.value.doc.Some? ==>
      Decide(sum, changed, path, host) == Rebuild && path in host.documents &&
      r.1.value.doc.value == host.documents[path] &&
      r.1.value.index == TemplateIndex(host.documents[path].text) &&
      r.0 == sum[path := Summary(r.1.value.index, host.documents[path].diskTimestamp)]
    ensures r.1.None? <==> Decide(sum, changed, path, host) == Reject || (Decide(sum, changed, path, host) == Rebuild && path !in host.documents)
  {
    match Decide(sum, changed, path, host)
    case UseCache => (sum, Some(Listing(path, None, sum[path].index)))
    case Reject => (sum, None)
    case Rebuild =>
      if path in host.documents then
        var doc := host.documents[path];
        var index := TemplateIndex(doc.text);
        (sum[path := Summary(index, doc.diskTimestamp)], Some(Listing(path, Some(doc), index)))
      else (sum, None)
  }

  /** `_getTemplatesInFiles` as values, one path after the other: the final cache summary and
      the listings of the paths that resolved, in order. A sweep never evicts a cached file. */
  function Sweep(sum: map<string, Summary>, changed: set<string>, paths: seq<string>, host: Host)
    : (r: (map<string, Summary>, seq<Listing>))
    ensures sum.Keys <= r.0.Keys
  {
    if paths == [] then (sum, [])
    else
      var prior := Sweep(sum, changed, paths[..|paths| - 1], host);
      var step := Visit(prior.0, changed, paths[|paths| - 1], host);
      (step.0, prior.1 + Items(step.1))
  }

  /** Only the given paths are listed, at most one listing per path given. */
  lemma {:induction false} SweepListsGiven(sum: map<string, Summary>, changed: set<string>, paths: seq<string>, host: Host)
    ensures |Sweep(sum, changed, paths, host).1| <= |paths|
    ensures forall l :: l in Sweep(sum, changed, paths, host).1 ==> l.path in paths
  {
    if paths != [] {
      var prior := paths[..|paths| - 1];
      SweepListsGiven(sum, changed, prior, host);
      assert forall q :: q in prior ==> q in paths;
    }
  }

  /** The cache entry of a path that is not swept is left as it was. */
  lemma {:induction false} SweepLeavesOthers(sum: map<string, Summary>, changed: set<string>, paths: seq<string>,
                                            host: Host, q: string)
    requires q !in paths
    ensures q in Sweep(sum, changed, paths, host).0 <==> q in sum
    ensures q in sum ==> Sweep(sum, changed, paths, host).0[q] == sum[q]
  {
    if paths != [] {
      SweepLeavesOthers(sum, changed, paths[..|paths| - 1], host, q);
    }
  }

  /** A listing that carries a document holds the index of that document's text, and the
      document is the one the host hands out for the listed path. */
  lemma {:induction false} SweepListsCurrent(sum: map<string, Summary>, changed: set<string>, paths: seq<string>, host: Host)
    ensures forall l :: l in Sweep(sum, changed, paths, host).1 && l.doc.Some? ==>
      l.path in host.documents && l.doc.value == host.documents[l.path] &&
      l.index == TemplateIndex(l.doc.value.text)
  {
    if paths != [] {
      SweepListsCurrent(sum, changed, paths[..|paths| - 1], host);
    }
  }

  /** "If one file fails, continue to search": a path whose read fails (or whose `stat`
      fails) is skipped, and the sweep over the other paths comes out exactly as if it had
      not been given. */
  lemma {:induction false} SweepSkipsFailure(sum: map<string, Summary>, changed: set<string>, pre: seq<string>,
                                            p: string, post: seq<string>, host: Host)
    requires Visit(Sweep(sum, changed, pre, host).0, changed, p, host).1.None?
    ensures Sweep(sum, changed, pre + [p] + post, host) == Sweep(sum, changed, pre + post, host)
    decreases |post|
  {
    if post == [] {
      SweepSkipsLast(sum, changed, pre, p, host);
      assert pre + [p] + post == pre + [p] && pre + post == pre;
    } else {
      var rest := post[..|post| - 1];
      var last := post[|post| - 1];
      var a, b := pre + [p] + rest, pre + rest;
      assert pre + [p] + post == a + [last];
      assert pre + post == b + [last];
      SweepSkipsFailure(sum, changed, pre, p, rest, host);
      SweepSnocSame(sum, changed, a, b, last, host);
    }
  }

  /** A failing last path leaves the sweep as it was. */
  lemma SweepSkipsLast(sum: map<string, Summary>, changed: set<string>, pre: seq<string>, p: string, host: Host)
    requires Visit(Sweep(sum, changed, pre, host).0, changed, p, host).1.None?
    ensures Sweep(sum, changed, pre + [p], host) == Sweep(sum, changed, pre, host)
  {
    SweepSnoc(sum, changed, pre, p, host);
    var prior := Sweep(sum, changed, pre, host);
    assert prior.1 + [] == prior.1;
  }

  /** Two path lists that sweep alike still sweep alike with one more path after each. */
  lemma SweepSnocSame(sum: map<string, Summary>, changed: set<string>, a: seq<string>, b: seq<string>,
                      p: string, host: Host)
    requires Sweep(sum, changed, a, host) == Sweep(sum, changed, b, host)
    ensures Sweep(sum, changed, a + [p], host) == Sweep(sum, changed, b + [p], host)
  {
    SweepSnoc(sum, changed, a, p, host);
    SweepSnoc(sum, changed, b, p, host);
  }

  /** The sweep over one more path is one more visit. */
  lemma SweepSnoc(sum: map<string, Summary>, changed: set<string>, paths: seq<string>, p: string, host: Host)
    ensures Sweep(sum, changed, paths + [p], host) ==
      var prior := Sweep(sum, changed, paths, host);
      var step := Visit(prior.0, changed, p, host);
      (step.0, prior.1 + Items(step.1))
  {
    assert (paths + [p])[..|paths|] == paths;
  }

  /** With nothing reported changed and every path cached, the sweep reads nothing: the cache
      stays as it is and every path is listed, in order, with its cached offsets. So the
      sweep that follows a complete one (the tracker having been reset) is served from the
      cache. */
  lemma {:induction false} QuietSweepServesCache(sum: map<string, Summary>, paths: seq<string>, host: Host)
    requires forall p :: p in paths ==> p in sum
    ensures Sweep(sum, {}, paths, host).0 == sum
    ensures |Sweep(sum, {}, paths, host).1| == |paths|
    ensures forall i :: 0 <= i < |paths| ==>
      Sweep(sum, {}, paths, host).1[i] == Listing(paths[i], None, sum[paths[i]].index)
  {
    if paths != [] {
      var prior := paths[..|paths| - 1];
      var last := paths[|paths| - 1];
      assert forall p :: p in prior ==> p in paths;
      QuietSweepServesCache(sum, prior, host);
      var before := Sweep(sum, {}, prior, host);
      assert Decide(sum, {}, last, host) == UseCache;
      var hit := Listing(last, None, sum[last].index);
      assert Visit(sum, {}, last, host) == (sum, Some(hit));
      assert Sweep(sum, {}, paths, host) == (sum, before.1 + [hit]);
      forall i | 0 <= i < |paths|
        ensures (before.1 + [hit])[i] == Listing(paths[i], None, sum[paths[i]].index)
      {
        if i < |prior| {
          assert paths[i] == prior[i];
        }
      }
    }
  }

  // ---------------------------------------------------------------------------------------
  // The rows of `_getOffsetsForTemplate`, by document

  /** A listing whose document is at hand, or can be fetched. */
  predicate Fetchable(l: Listing, host: Host) {
    l.doc.Some? || l.path in host.documents
  }

  /** The document paths of the rows one listing contributes: one per marker filed under
      exactly `name` (an own key, so no "*" wildcard and no prototype name), none when the
      document cannot be fetched. */
  function HitPaths(l: Listing, name: string, host: Host): (r: seq<string>)
    ensures forall k :: 0 <= k < |r| ==> r[k] == l.path
    ensures |r| == if name in l.index && Fetchable(l, host) then |l.index[name]| else 0
  {
    if name in l.index && Fetchable(l, host) then seq(|l.index[name]|, _ => l.path) else []
  }

  /** The document paths of the rows of a whole query, listing by listing. */
  function RowPaths(ls: seq<Listing>, name: string, host: Host): seq<string> {
    if ls == [] then [] else RowPaths(ls[..|ls| - 1], name, host) + HitPaths(ls[|ls| - 1], name, host)
  }

  /** Some listing of `ls` is the document at `path`, files markers under exactly `name` and
      can be fetched. */
  predicate ListedHit(ls: seq<Listing>, name: string, host: Host, path: string) {
    exists l :: l in ls && l.path == path && name in l.index && Fetchable(l, host)
  }

  /** Every row names a listed document that files markers under exactly `name` and can be
      fetched. */
  lemma {:induction false} RowPathsListed(ls: seq<Listing>, name: string, host: Host)
    ensures forall k :: 0 <= k < |RowPaths(ls, name, host)| ==> ListedHit(ls, name, host, RowPaths(ls, name, host)[k])
  {
    if ls != [] {
      var prior := ls[..|ls| - 1];
      var last := ls[|ls| - 1];
      RowPathsListed(prior, name, host);
      var before := RowPaths(prior, name, host);
      var r := RowPaths(ls, name, host);
      assert r == before + HitPaths(last, name, host);
      forall k | 0 <= k < |r|
        ensures ListedHit(ls, name, host, r[k])
      {
        if k < |before| {
          assert r[k] == before[k] && ListedHit(prior, name, host, before[k]);
          var l :| l in prior && l.path == r[k] && name in l.index && Fetchable(l, host);
          assert l in ls;
        } else {
          assert name in last.index && Fetchable(last, host);
          assert r[k] == last.path && last in ls;
        }
      }
    }
  }

  /** A name that no table files under gets no rows: there is no fallback to a prefix, a
      wildcard or an inherited property. */
  lemma {:induction false} RowPathsNeedExactKey(ls: seq<Listing>, name: string, host: Host)
    requires forall l :: l in ls ==> name !in l.index
    ensures RowPaths(ls, name, host) == []
  {
    if ls != [] {
      RowPathsNeedExactKey(ls[..|ls| - 1], name, host);
      assert ls[|ls| - 1] in ls;
    }
  }

  /** Every row of a sweep's query names a file the sweep was given. */
  lemma RowPathsGiven(sum: map<string, Summary>, changed: set<string>, files: seq<string>, host: Host, name: string)
    ensures var rows := RowPaths(Sweep(sum, changed, files, host).1, name, host);
      forall k :: 0 <= k < |rows| ==> rows[k] in files
  {
    var listed := Sweep(sum, changed, files, host).1;
    var rows := RowPaths(listed, name, host);
    SweepListsGiven(sum, changed, files, host);
    RowPathsListed(listed, name, host);
    forall k | 0 <= k < |rows|
      ensures rows[k] in files
    {
      assert ListedHit(listed, name, host, rows[k]);
      var l :| l in listed && l.path == rows[k] && name in l.index && Fetchable(l, host);
    }
  }

  /** The path of each range, in order. */
  function RangePaths(rs: seq<Range>): (r: seq<string>)
    ensures |r| == |rs|
  {
    seq(|rs|, k requires 0 <= k < |rs| => rs[k].path)
  }

  /** The records one doc entry files under exactly `name`. */
  function Hits(e: DocEntry, name: string): set<TemplateRecord> {
    if name in e.functions then set r | r in e.functions[name] else {}
  }

  /** The records of all the doc entries that file markers under exactly `name`. */
  function Targets(es: seq<DocEntry>, name: string): set<TemplateRecord> {
    set e, r | e in es && r in Hits(e, name) :: r
  }

  lemma TargetsAreEntryRecords(es: seq<DocEntry>, name: string)
    ensures Targets(es, name) <= EntryRecords(es)
  {
    forall r | r in Targets(es, name)
      ensures r in EntryRecords(es)
    {
      var e :| e in es && r in Hits(e, name);
      var i :| 0 <= i < |e.functions[name]| && e.functions[name][i] == r;
      assert r in Records(e.functions);
    }
  }

  /** `_getOffsetsForTemplate`: for each doc entry whose table has `templateName` as an own
      key, take the document (fetching it when the entry came from the cache, and skipping
      the entry when the fetch fails) and append that document's ranges with
      `_computeOffsets`. The ranges name `templateName` and, in order, the documents of
      `RowPaths`; a record whose end offset was already known is left as it was. */
  method GetOffsetsForTemplate<S(!new)>(mode: Mode<S>, docEntries: seq<DocEntry>, templateName: string, host: Host)
    returns (rangeResults: seq<Range>)
    requires Advances(mode)
    modifies Targets(docEntries, templateName)
    ensures RangePaths(rangeResults) == EntryPaths(docEntries, templateName, host)
    ensures forall k :: 0 <= k < |rangeResults| ==> rangeResults[k].name == templateName
    ensures forall r :: r in Targets(docEntries, templateName) && old(r.offsetEnd) != 0 ==> unchanged(r)
  {
    rangeResults := [];
    for i := 0 to |docEntries|
      invariant RangePaths(rangeResults) == EntryPaths(docEntries[..i], templateName, host)
      invariant forall k :: 0 <= k < |rangeResults| ==> rangeResults[k].name == templateName
      invariant forall r :: r in Targets(docEntries, templateName) && old(r.offsetEnd) != 0 ==> unchanged(r)
    {
      assert docEntries[..i + 1][..i] == docEntries[..i];
      assert Hits(docEntries[i], templateName) <= Targets(docEntries, templateName);
      rangeResults := OffsetsForEntry(mode, docEntries[i], templateName, host, rangeResults);
    }
    assert docEntries[..|docEntries|] == docEntries;
  }

  /** `HitPaths` read off a doc entry. */
  function EntryHitPaths(e: DocEntry, name: string, host: Host): seq<string> {
    if name in e.functions && (e.doc.Some? || e.path in host.documents) then seq(|e.functions[name]|, _ => e.path) else []
  }

  /** `RowPaths` read off the doc entries. */
  function EntryPaths(es: seq<DocEntry>, name: string, host: Host): seq<string> {
    if es == [] then [] else EntryPaths(es[..|es| - 1], name, host) + EntryHitPaths(es[|es| - 1], name, host)
  }

  lemma {:induction false} EntryPathsAreRowPaths(es: seq<DocEntry>, name: string, host: Host)
    ensures EntryPaths(es, name, host) == RowPaths(Views(es), name, host)
  {
    if es != [] {
      var prior := es[..|es| - 1];
      EntryPathsAreRowPaths(prior, name, host);
      assert Views(es)[..|es| - 1] == Views(prior);
      assert EntryHitPaths(es[|es| - 1], name, host) == HitPaths(View(es[|es| - 1]), name, host);
    }
  }

  /** The text of a doc entry's document: the one it carries, or else the one fetched for its
      path. */
  function EntryText(e: DocEntry, host: Host): string
    requires e.doc.Some? || e.path in host.documents
  {
    if e.doc.Some? then e.doc.value.text else host.documents[e.path].text
  }

  /** The callback of `_getOffsetsForTemplate` for one doc entry: nothing when the table
      lacks the name or the document cannot be fetched, otherwise `_computeOffsets` on the
      entry's records over the entry's text. Each record is then materialised for that text,
      and the new ranges carry, record by record, the lines the record now holds. */
  method OffsetsForEntry<S(!new)>(mode: Mode<S>, docEntry: DocEntry, templateName: string, host: Host,
                                  rangeResults: seq<Range>)
    returns (results: seq<Range>)
    requires Advances(mode)
    modifies Hits(docEntry, templateName)
    ensures RangePaths(results) == RangePaths(rangeResults) + EntryHitPaths(docEntry, templateName, host)
    ensures results[..|rangeResults|] == rangeResults
    ensures forall k :: |rangeResults| <= k < |results| ==> results[k].name == templateName
    ensures forall r :: r in Hits(docEntry, templateName) && old(r.offsetEnd) != 0 ==> unchanged(r)
    ensures !(templateName in docEntry.functions && (docEntry.doc.Some? || docEntry.path in host.documents)) ==>
      results == rangeResults && forall r :: r in Hits(docEntry, templateName) ==> unchanged(r)
    ensures templateName in docEntry.functions && (docEntry.doc.Some? || docEntry.path in host.documents) ==>
      var templates := docEntry.functions[templateName];
      |results| == |rangeResults| + |templates| &&
      (forall i :: 0 <= i < |templates| ==>
        results[|rangeResults| + i] == Range(docEntry.path, templateName, templates[i].lineStart, templates[i].lineEnd)) &&
      (forall i :: 0 <= i < |templates| ==> Materialised(mode, EntryText(docEntry, host), templates[i]))
  {
    results := rangeResults;
    if templateName !in docEntry.functions {
      return;
    }
    var text := "";
    match docEntry.doc {
      case Some(doc) =>
        text := doc.text;
      case None =>
        if docEntry.path !in host.documents {
          return;
        }
        text := host.documents[docEntry.path].text;
    }
    var templates := docEntry.functions[templateName];
    results := ComputeOffsets(mode, docEntry.path, text, templateName, templates, rangeResults);
    forall k | |rangeResults| <= k < |results|
      ensures results[k].path == docEntry.path && results[k].name == templateName
    {
      var i := k - |rangeResults|;
      assert results[|rangeResults| + i] == Range(docEntry.path, templateName, templates[i].lineStart, templates[i].lineEnd);
    }
    RangePathsExtend(rangeResults, results, docEntry.path);
    forall r | r in Hits(docEntry, templateName) && old(r.offsetEnd) != 0
      ensures unchanged(r)
    {
      var i :| 0 <= i < |templates| && templates[i] == r;
      assert Materialised(mode, text, templates[i]);
    }
  }

  /** Appending ranges of one document appends copies of its path. */
  lemma RangePathsExtend(before: seq<Range>, after: seq<Range>, path: string)
    requires |before| <= |after| && after[..|before|] == before
    requires forall k :: |before| <= k < |after| ==> after[k].path == path
    ensures RangePaths(after) == RangePaths(before) + seq(|after| - |before|, _ => path)
  {
    forall k | 0 <= k < |after|
      ensures RangePaths(after)[k] == (RangePaths(before) + seq(|after| - |before|, _ => path))[k]
    {
      if k < |before| {
        assert after[k] == before[k];
      }
    }
  }

  // ---------------------------------------------------------------------------------------
  // `findAllMatchingTemplatesInText` as values

  /** One result of `findAllMatchingTemplatesInText`: the name and the 0-based line range. */
  datatype Found = Found(name: string, lineStart: nat, lineEnd: nat)

  /** The results for the markers at `starts`, all filed under `name`, one per marker. */
  function FoundRows<S>(mode: Mode<S>, text: string, name: string, starts: seq<nat>): (r: seq<Found>)
    ensures |r| == |starts|
  {
    if starts == [] then []
    else
      var o := starts[|starts| - 1];
      FoundRows(mode, text, name, starts[..|starts| - 1]) + [Found(name, LinesOf(mode, text, o).0, LinesOf(mode, text, o).1)]
  }

  /** Each result names the marker's template and spans the lines from the marker to the end
      of its block, never backwards. */
  lemma {:induction false} FoundRowsSpan<S>(mode: Mode<S>, text: string, name: string, starts: seq<nat>)
    ensures forall i :: 0 <= i < |starts| ==>
      FoundRows(mode, text, name, starts)[i].name == name &&
      (FoundRows(mode, text, name, starts)[i].lineStart, FoundRows(mode, text, name, starts)[i].lineEnd) == LinesOf(mode, text, starts[i]) &&
      FoundRows(mode, text, name, starts)[i].lineStart <= FoundRows(mode, text, name, starts)[i].lineEnd
  {
    if starts != [] {
      var prior := starts[..|starts| - 1];
      FoundRowsSpan(mode, text, name, prior);
      LinesOrdered(mode, text, starts[|starts| - 1]);
      forall i | 0 <= i < |prior| {
        LinesOrdered(mode, text, starts[i]);
      }
    }
  }

  /** The results with name `k`, in order. */
  function Named(rows: seq<Found>, k: string): (r: seq<Found>)
    ensures |r| <= |rows|
  {
    if rows == [] then []
    else Named(rows[..|rows| - 1], k) + (if rows[|rows| - 1].name == k then [rows[|rows| - 1]] else [])
  }

  lemma {:induction false} NamedAppend(a: seq<Found>, b: seq<Found>, k: string)
    ensures Named(a + b, k) == Named(a, k) + Named(b, k)
    decreases |b|
  {
    if b != [] {
      var last := b[|b| - 1];
      var tail := if last.name == k then [last] else [];
      NamedAppend(a, b[..|b| - 1], k);
      assert (a + b)[..|a + b| - 1] == a + b[..|b| - 1];
      assert (a + b)[|a + b| - 1] == last;
      calc {
        Named(a + b, k);
        Named(a + b[..|b| - 1], k) + tail;
        Named(a, k) + Named(b[..|b| - 1], k) + tail;
        Named(a, k) + (Named(b[..|b| - 1], k) + tail);
        Named(a, k) + Named(b, k);
      }
    } else {
      assert a + b == a;
    }
  }

  lemma {:induction false} NamedFoundRows<S>(mode: Mode<S>, text: string, name: string, starts: seq<nat>, k: string)
    ensures Named(FoundRows(mode, text, name, starts), k) == if k == name then FoundRows(mode, text, name, starts) else []
    decreases |starts|
  {
    if starts != [] {
      var rows := FoundRows(mode, text, name, starts);
      NamedFoundRows(mode, text, name, starts[..|starts| - 1], k);
      assert rows[..|rows| - 1] == FoundRows(mode, text, name, starts[..|starts| - 1]);
    }
  }

  /** The results `findAllMatchingTemplatesInText(text, searchName)` holds for name `k`: the
      rows of every marker filed under `k`, in text order, when `k` is a name of the text and
      is the searched name or the search is the "*" wildcard; none otherwise. */
  function Expected<S>(mode: Mode<S>, text: string, idx: map<string, seq<nat>>, searchName: string, k: string): seq<Found> {
    if k in idx && (k == searchName || searchName == "*") then FoundRows(mode, text, k, idx[k]) else []
  }

  /** The `_.forEach` over the table of `findAllMatchingTemplatesInText`, in the table's key
      order: for every name the result holds exactly the `Expected` rows, in text order. */
  method SelectTemplates<S(!new)>(mode: Mode<S>, text: string, allTemplates: TemplateTable, searchName: string)
    returns (result: seq<Found>)
    requires Advances(mode)
    ensures forall k :: Named(result, k) == Expected(mode, text, StartsTable(allTemplates), searchName, k)
  {
    ghost var idx := StartsTable(allTemplates);
    result := [];
    var names := allTemplates.Keys;
    ghost var visited: set<string> := {};
    while names != {}
      invariant names !! visited && names + visited == allTemplates.Keys
      invariant forall k :: Named(result, k) == if k in visited then Expected(mode, text, idx, searchName, k) else []
      decreases names
    {
      var templateName :| templateName in names;
      assert idx[templateName] == Starts(allTemplates[templateName]);
      if templateName == searchName || searchName == "*" {
        var rows := RowsFor(mode, text, templateName, allTemplates[templateName]);
        SelectStep(mode, text, idx, searchName, result, visited, templateName, rows);
        result := result + rows;
      } else {
        SelectStep(mode, text, idx, searchName, result, visited, templateName, []);
        assert result + [] == result;
      }
      names := names - {templateName};
      visited := visited + {templateName};
    }
    forall k
      ensures Named(result, k) == Expected(mode, text, idx, searchName, k)
    {
      if k !in visited {
        assert k !in idx;
      }
    }
  }

  /** One name of the table handled: the rows for `name`, if it is selected, are appended
      to the rows of the names handled before. */
  lemma SelectStep<S>(mode: Mode<S>, text: string, idx: map<string, seq<nat>>, searchName: string,
                      result: seq<Found>, visited: set<string>, name: string, rows: seq<Found>)
    requires forall k :: Named(result, k) == if k in visited then Expected(mode, text, idx, searchName, k) else []
    requires name in idx && name !in visited
    requires rows == if name == searchName || searchName == "*" then FoundRows(mode, text, name, idx[name]) else []
    ensures forall k :: Named(result + rows, k) == if k in visited + {name} then Expected(mode, text, idx, searchName, k) else []
  {
    forall k
      ensures Named(result + rows, k) == if k in visited + {name} then Expected(mode, text, idx, searchName, k) else []
    {
      NamedAppend(result, rows, k);
      if name == searchName || searchName == "*" {
        NamedFoundRows(mode, text, name, idx[name], k);
      } else {
        assert Named(rows, k) == [];
      }
    }
  }

  /** The inner `templates.forEach` of `findAllMatchingTemplatesInText`: one result per record,
      from the end offset computed afresh (the record is not updated). */
  method RowsFor<S(!new)>(mode: Mode<S>, text: string, templateName: string, templates: seq<TemplateRecord>)
    returns (rows: seq<Found>)
    requires Advances(mode)
    ensures rows == FoundRows(mode, text, templateName, Starts(templates))
  {
    rows := [];
    for i := 0 to |templates|
      invariant rows == FoundRows(mode, text, templateName, Starts(templates[..i]))
    {
      assert templates[..i + 1][..i] == templates[..i];
      var endOffset := GetTemplateEndOffset(mode, text, templates[i].offsetStart);
      rows := rows + [Found(templateName, LineOf(text, templates[i].offsetStart), LineOf(text, endOffset))];
    }
    assert templates[..|templates|] == templates;
  }

  // ---------------------------------------------------------------------------------------
  // File selection

  /** `FileUtils.getFileExtension(path).toLowerCase() === "soy"`. The test is case-blind: a
      file is a SOY file exactly when its extension is one of the eight spellings of "soy". */
  predicate IsSoyFile(path: string): (b: bool)
    ensures b <==> FileExtension(path) in {"soy", "soY", "sOy", "sOY", "Soy", "SoY", "SOy", "SOY"}
  {
    LowersToSoy(FileExtension(path));
    SpelledSoy(FileExtension(path));
    ToLower(FileExtension(path)) == "soy"
  }

  /** Lower-casing gives "soy" exactly from three characters, each the letter in either case. */
  lemma LowersToSoy(e: string)
    ensures ToLower(e) == "soy" <==>
      |e| == 3 && (e[0] == 's' || e[0] == 'S') && (e[1] == 'o' || e[1] == 'O') && (e[2] == 'y' || e[2] == 'Y')
  {
    if ToLower(e) == "soy" {
      assert ToLower(e)[0] == 's' && ToLower(e)[1] == 'o' && ToLower(e)[2] == 'y';
    }
  }

  lemma SpelledSoy(e: string)
    ensures e in {"soy", "soY", "sOy", "sOY", "Soy", "SoY", "SOy", "SOY"} <==>
      |e| == 3 && (e[0] == 's' || e[0] == 'S') && (e[1] == 'o' || e[1] == 'O') && (e[2] == 'y' || e[2] == 'Y')
  {
    if |e| == 3 {
      assert e == [e[0], e[1], e[2]];
    }
  }

  /** `xs.filter(keep)`: the elements that pass, in order. */
  function Filter<T(!new)>(xs: seq<T>, keep: T -> bool): (r: seq<T>)
    ensures |r| <= |xs|
    ensures forall x :: x in r <==> x in xs && keep(x)
  {
    if xs == [] then []
    else
      var last := xs[|xs| - 1];
      assert xs == xs[..|xs| - 1] + [last];
      Filter(xs[..|xs| - 1], keep) + (if keep(last) then [last] else [])
  }

  /** Filtering keeps the order: filtering two lists one after the other gives the filtered
      first list followed by the filtered second. */
  lemma {:induction false} FilterAppend<T(!new)>(a: seq<T>, b: seq<T>, keep: T -> bool)
    ensures Filter(a + b, keep) == Filter(a, keep) + Filter(b, keep)
    decreases |b|
  {
    if b == [] {
      assert a + b == a && Filter(b, keep) == [];
      assert Filter(a, keep) + [] == Filter(a, keep);
    } else {
      var last := b[|b| - 1];
      var front := b[..|b| - 1];
      var tail := if keep(last) then [last] else [];
      assert (a + b)[..|a + b| - 1] == a + front && (a + b)[|a + b| - 1] == last;
      assert Filter(a + b, keep) == Filter(a + front, keep) + tail;
      assert Filter(b, keep) == Filter(front, keep) + tail;
      FilterAppend(a, front, keep);
    }
  }

  /** Filtering keeps each element that passes as often as it occurs, and drops every other
      one. */
  lemma {:induction false} FilterCounts<T(!new)>(xs: seq<T>, keep: T -> bool, x: T)
    ensures multiset(Filter(xs, keep))[x] == if keep(x) then multiset(xs)[x] else 0
    decreases |xs|
  {
    if xs != [] {
      var front := xs[..|xs| - 1];
      var last := xs[|xs| - 1];
      assert xs == front + [last];
      FilterCounts(front, keep, x);
    }
  }

  /** The records of the table an optional doc entry holds. */
  function ItemRecords(r: Option<DocEntry>): set<TemplateRecord> {
    if r.Some? then Records(r.value.functions) else {}
  }

  /** Appending what a visit resolves with appends its view and its records. */
  lemma AppendItems(es: seq<DocEntry>, r: Option<DocEntry>)
    ensures Views(es + Items(r)) == Views(es) + Items(OptView(r))
    ensures EntryRecords(es + Items(r)) == EntryRecords(es) + ItemRecords(r)
  {
    if r.Some? {
      assert (es + Items(r))[..|es|] == es;
      EntryRecordsAppend(es, r.value);
    } else {
      assert es + Items(r) == es;
    }
  }

  lemma EntryRecordsAppend(es: seq<DocEntry>, e: DocEntry)
    ensures EntryRecords(es + [e]) == EntryRecords(es) + Records(e.functions)
  {
  }

  /** Caching a table under a path changes the summary at that path only. */
  lemma SummariseUpdate(cache: map<string, Cached>, p: string, c: Cached)
    ensures Summarise(cache[p := c]) == Summarise(cache)[p := Summary(StartsTable(c.functions), c.timestamp)]
  {
  }

  /** The cache check run on the cache decides as `Decide` on its summary. */
  lemma DecideOnSummary(cache: map<string, Cached>, changed: set<string>, p: string, host: Host)
    ensures Decide(Summarise(cache), changed, p, host) ==
      ShouldGetFromCache(p in changed, if p in cache then Some(cache[p].timestamp) else None,
                         p in host.openDirty, if p in host.mtimes then Some(host.mtimes[p]) else None)
  {
    var sum := Summarise(cache);
    assert p in cache <==> p in sum;
    assert p in cache ==> sum[p].timestamp == cache[p].timestamp;
  }

  /** The records of one cached table are records of the cache. */
  lemma RecordsCached(cache: map<string, Cached>, p: string)
    requires p in cache
    ensures Records(cache[p].functions) <= CachedRecords(cache)
  {
  }

  /** Each table of the cache and of the doc entries is a table of `base` or holds only
      records of `made`. */
  predicate Provenance(cache: map<string, Cached>, es: seq<DocEntry>, base: map<string, Cached>,
                       made: set<TemplateRecord>)
  {
    (forall e :: e in es ==> Inherited(e.functions, e.path, base) || Records(e.functions) <= made) &&
    (forall q :: q in cache ==> Inherited(cache[q].functions, q, base) || Records(cache[q].functions) <= made)
  }

  /** One visit keeps `Provenance`: it hands out a table it found cached or one of new
      records, and caches at most one new table. */
  lemma ProvenanceStep(before: map<string, Cached>, after: map<string, Cached>, path: string,
                       base: map<string, Cached>, made: set<TemplateRecord>, made': set<TemplateRecord>,
                       r: Option<DocEntry>, es: seq<DocEntry>, es': seq<DocEntry>)
    requires Provenance(before, es, base, made) && made <= made'
    requires r.Some? ==> r.value.path == path
    requires r.Some? ==> Inherited(r.value.functions, path, before) || Records(r.value.functions) <= made'
    requires after == before || (path in after && after == before[path := after[path]] && Records(after[path].functions) <= made')
    requires es' == es + Items(r)
    ensures Provenance(after, es', base, made')
  {
    forall e | e in es'
      ensures Inherited(e.functions, e.path, base) || Records(e.functions) <= made'
    {
      if e !in es {
        assert e == r.value;
      }
    }
    forall q | q in after
      ensures Inherited(after[q].functions, q, base) || Records(after[q].functions) <= made'
    {
      if after != before && q != path {
        assert after[q] == before[q];
      }
    }
  }

  /** A record that was cached before a sweep and that a swept entry files under `name` came
      with a table taken from the cache, so it was cached under `name`. */
  lemma CachedTargetsAreNamed(es: seq<DocEntry>, name: string, base: map<string, Cached>)
    requires forall e :: e in es ==> Inherited(e.functions, e.path, base) || Records(e.functions) !! CachedRecords(base)
    ensures Targets(es, name) * CachedRecords(base) <= NamedRecords(base, name)
  {
    forall r | r in Targets(es, name) * CachedRecords(base)
      ensures r in NamedRecords(base, name)
    {
      var e :| e in es && r in Hits(e, name);
      var i :| 0 <= i < |e.functions[name]| && e.functions[name][i] == r;
      assert r in Records(e.functions);
    }
  }

  lemma CachedRecordsUpdate(cache: map<string, Cached>, p: string, c: Cached)
    ensures CachedRecords(cache[p := c]) <= CachedRecords(cache) + Records(c.functions)
  {
  }

  // ---------------------------------------------------------------------------------------
  // The module's state

  /** The state the module keeps between calls: the cached table of each file (the source
      hangs it on the file object as `fileInfo.SOYUtils`), the paths the change tracker
      reports changed since its last reset, and the shared template expression. */
  class SoyIndex {
    var cache: map<string, Cached>
    var changed: set<string>
    const re: TemplateRegExp

    /** Between calls the template expression is reset, so every scan covers its whole text. */
    predicate Valid()
      reads this, re
    {
      re.lastIndex == 0
    }

    constructor()
      ensures Valid() && cache == map[] && changed == {} && fresh(re)
    {
      cache := map[];
      changed := {};
      re := new TemplateRegExp();
    }

    /** The change tracker's response to an edit of the document at `path`. */
    method DocumentChanged(path: string)
      modifies this
      ensures changed == old(changed) + {path} && cache == old(cache)
    {
      changed := changed + {path};
    }

    /** `_readFile`: fetch the document, scan its text and cache the table under the
        document's timestamp, replacing any earlier entry for the path; a failed fetch
        rejects and caches nothing. */
    method ReadFile(path: string, host: Host) returns (r: Option<DocEntry>)
      requires Valid()
      modifies this, re
      ensures Valid() && changed == old(changed)
      ensures path !in host.documents ==> r == None && cache == old(cache)
      ensures path in host.documents ==>
        r.Some? && r.value.path == path && r.value.doc == Some(host.documents[path]) &&
        cache == old(cache)[path := Cached(r.value.functions, host.documents[path].diskTimestamp)] &&
        StartsTable(r.value.functions) == TemplateIndex(host.documents[path].text) &&
        fresh(Records(r.value.functions)) && Unfilled(r.value.functions)
    {
      if path !in host.documents {
        return None;
      }
      var doc := host.documents[path];
      var allTemplates := FindAllTemplatesInText(doc.text, re);
      cache := cache[path := Cached(allTemplates, doc.diskTimestamp)];
      r := Some(DocEntry(path, Some(doc), allTemplates));
    }

    /** `_getTemplatesForFile`: serve the cached table when the cache check allows it, read
        the file when it says the cache is missing or stale, and reject when it rejects. In
        values this is `Step`; the records it hands out are cached ones or new ones. */
    method GetTemplatesForFile(path: string, host: Host) returns (r: Option<DocEntry>)
      requires Valid()
      modifies this, re
      ensures Valid() && changed == old(changed)
      ensures (Summarise(cache), OptView(r)) == Visit(old(Summarise(cache)), changed, path, host)
      ensures r.Some? ==> fresh(Records(r.value.functions) - old(CachedRecords(cache)))
      ensures fresh(CachedRecords(cache) - old(CachedRecords(cache)))
      ensures r.Some? ==> r.value.path == path
      ensures r.Some? ==> Inherited(r.value.functions, path, old(cache)) || fresh(Records(r.value.functions))
      ensures cache == old(cache) || (path in cache && cache == old(cache)[path := cache[path]] && fresh(Records(cache[path].functions)))
    {
      var useCache := ShouldGetFromCache(path in changed,
                                         if path in cache then Some(cache[path].timestamp) else None,
                                         path in host.openDirty,
                                         if path in host.mtimes then Some(host.mtimes[path]) else None);
      ghost var sum := Summarise(cache);
      DecideOnSummary(cache, changed, path, host);
      match useCache
      case UseCache =>
        r := Some(DocEntry(path, None, cache[path].functions));
        assert OptView(r) == Some(Listing(path, None, sum[path].index));
      case Reject =>
        r := None;
      case Rebuild =>
        ghost var before := cache;
        r := ReadFile(path, host);
        if r.Some? {
          var doc := host.documents[path];
          CachedRecordsUpdate(before, path, Cached(r.value.functions, doc.diskTimestamp));
          SummariseUpdate(before, path, Cached(r.value.functions, doc.diskTimestamp));
          assert OptView(r) == Some(Listing(path, Some(doc), TemplateIndex(doc.text)));
        }
    }

    /** `_getTemplatesInFiles`: run `_getTemplatesForFile` on each path, keep the entries that
        resolve and skip the ones that reject, then reset the change tracker. The new cache
        and the entries are those of `Sweep` from the old cache and the old tracker; the
        records of the entries are cached ones or new ones. */
    method GetTemplatesInFiles(paths: seq<string>, host: Host) returns (docEntries: seq<DocEntry>)
      requires Valid()
      modifies this, re
      ensures Valid() && changed == {}
      ensures (Summarise(cache), Views(docEntries)) == Sweep(old(Summarise(cache)), old(changed), paths, host)
      ensures fresh(EntryRecords(docEntries) - old(CachedRecords(cache)))
      ensures fresh(CachedRecords(cache) - old(CachedRecords(cache)))
      ensures forall e :: e in docEntries ==> Inherited(e.functions, e.path, old(cache)) || fresh(Records(e.functions))
    {
      docEntries := [];
      ghost var made: set<TemplateRecord> := {};
      for i := 0 to |paths|
        invariant Valid() && changed == old(changed)
        invariant (Summarise(cache), Views(docEntries)) == Sweep(old(Summarise(cache)), old(changed), paths[..i], host)
        invariant fresh(made)
        invariant EntryRecords(docEntries) <= old(CachedRecords(cache)) + made
        invariant CachedRecords(cache) <= old(CachedRecords(cache)) + made
        invariant Provenance(cache, docEntries, old(cache), made)
      {
        assert paths[..i + 1] == paths[..i] + [paths[i]];
        SweepSnoc(old(Summarise(cache)), old(changed), paths[..i], paths[i], host);
        docEntries, made := CollectTemplatesForFile(paths[i], host, docEntries, old(CachedRecords(cache)), old(cache), made);
      }
      assert paths[..|paths|] == paths;
      changed := {};
    }

    /** One turn of `_getTemplatesInFiles`: visit `path` and append what it resolves with.
        `made` gathers the records created since `base`, the records the sweep started from. */
    method CollectTemplatesForFile(path: string, host: Host, docEntries: seq<DocEntry>,
                                   ghost base: set<TemplateRecord>, ghost baseCache: map<string, Cached>,
                                   ghost made: set<TemplateRecord>)
      returns (docEntries': seq<DocEntry>, ghost made': set<TemplateRecord>)
      requires Valid()
      requires EntryRecords(docEntries) <= base + made && CachedRecords(cache) <= base + made
      requires Provenance(cache, docEntries, baseCache, made)
      modifies this, re
      ensures Valid() && changed == old(changed)
      ensures var step := Visit(old(Summarise(cache)), changed, path, host);
        Summarise(cache) == step.0 && Views(docEntries') == Views(docEntries) + Items(step.1)
      ensures made <= made' && fresh(made' - made)
      ensures EntryRecords(docEntries') <= base + made' && CachedRecords(cache) <= base + made'
      ensures Provenance(cache, docEntries', baseCache, made')
    {
      ghost var recordsBefore := CachedRecords(cache);
      ghost var cacheBefore := cache;
      var docInfo := GetTemplatesForFile(path, host);
      assert docInfo.Some? && !Inherited(docInfo.value.functions, path, cacheBefore) ==>
        Records(docInfo.value.functions) !! recordsBefore;
      assert cache != cacheBefore ==> path in cache && Records(cache[path].functions) !! recordsBefore;
      ghost var handedOut := ItemRecords(docInfo);
      made' := made + (CachedRecords(cache) - recordsBefore) + (handedOut - recordsBefore);
      if cache != cacheBefore {
        RecordsCached(cache, path);
      }
      docEntries' := docEntries + Items(docInfo);
      ProvenanceStep(cacheBefore, cache, path, baseCache, made, made', docInfo, docEntries, docEntries');
      AppendItems(docEntries, docInfo);
    }

    /** `findMatchingTemplates`: keep the SOY files unless told to keep them all, sweep them,
        and collect the ranges of the markers filed under exactly `templateName`. Every range
        names `templateName` and a file that was asked about (a SOY file, unless all were
        kept); the documents of the ranges are those of `RowPaths` over the sweep. Of the
        records cached before the call, only those filed under `templateName` whose end
        offset was still unknown may change. */
    method FindMatchingTemplates<S(!new)>(mode: Mode<S>, templateName: string, paths: seq<string>,
                                          keepAllFiles: bool, host: Host)
      returns (rangeResults: seq<Range>)
      requires Valid() && Advances(mode)
      modifies this, re, CachedRecords(cache)
      ensures Valid() && changed == {}
      ensures var files := if keepAllFiles then paths else Filter(paths, IsSoyFile);
        Summarise(cache) == Sweep(old(Summarise(cache)), old(changed), files, host).0 &&
        RangePaths(rangeResults) == RowPaths(Sweep(old(Summarise(cache)), old(changed), files, host).1, templateName, host)
      ensures forall k :: 0 <= k < |rangeResults| ==>
        rangeResults[k].name == templateName && rangeResults[k].path in paths &&
        (keepAllFiles || IsSoyFile(rangeResults[k].path))
      ensures forall r :: r in old(CachedRecords(cache)) && old(r.offsetEnd) != 0 ==> unchanged(r)
      ensures forall r :: r in old(CachedRecords(cache)) && r !in old(NamedRecords(cache, templateName)) ==> unchanged(r)
    {
      var soyFiles := if keepAllFiles then paths else Filter(paths, IsSoyFile);
      rangeResults := OffsetsInFiles(mode, templateName, soyFiles, host);
    }

    /** The part of `findMatchingTemplates` after the file filter: `_getTemplatesInFiles`
        on the files, then `_getOffsetsForTemplate` on the doc entries it resolves with. */
    method OffsetsInFiles<S(!new)>(mode: Mode<S>, templateName: string, files: seq<string>, host: Host)
      returns (rangeResults: seq<Range>)
      requires Valid() && Advances(mode)
      modifies this, re, CachedRecords(cache)
      ensures Valid() && changed == {}
      ensures Summarise(cache) == Sweep(old(Summarise(cache)), old(changed), files, host).0 &&
        RangePaths(rangeResults) == RowPaths(Sweep(old(Summarise(cache)), old(changed), files, host).1, templateName, host)
      ensures forall k :: 0 <= k < |rangeResults| ==> rangeResults[k].name == templateName && rangeResults[k].path in files
      ensures forall r :: r in old(CachedRecords(cache)) && old(r.offsetEnd) != 0 ==> unchanged(r)
      ensures forall r :: r in old(CachedRecords(cache)) && r !in old(NamedRecords(cache, templateName)) ==> unchanged(r)
    {
      ghost var sum := Summarise(cache);
      ghost var changedBefore := changed;
      ghost var cacheBefore := cache;
      var docEntries := GetTemplatesInFiles(files, host);
      assert forall e :: e in docEntries ==>
        Inherited(e.functions, e.path, cacheBefore) || Records(e.functions) !! CachedRecords(cacheBefore);
      CachedTargetsAreNamed(docEntries, templateName, cacheBefore);
      TargetsAreEntryRecords(docEntries, templateName);
      EntryPathsAreRowPaths(docEntries, templateName, host);
      RowPathsGiven(sum, changedBefore, files, host, templateName);
      rangeResults := GetOffsetsForTemplate(mode, docEntries, templateName, host);
      forall k | 0 <= k < |rangeResults|
        ensures rangeResults[k].path in files
      {
        assert RangePaths(rangeResults)[k] == rangeResults[k].path;
      }
    }

    /** `findAllMatchingTemplatesInText`: scan the text, and for each name of its table (in
        the table's key order) that is the searched name, or for every name when the search is
        "*", list each marker's line range. For every name the result holds exactly the
        `Expected` rows, in text order. */
    method FindAllMatchingTemplatesInText<S(!new)>(mode: Mode<S>, text: string, searchName: string)
      returns (result: seq<Found>)
      requires Valid() && Advances(mode)
      modifies re
      ensures Valid()
      ensures forall k :: Named(result, k) == Expected(mode, text, TemplateIndex(text), searchName, k)
    {
      var allTemplates := FindAllTemplatesInText(text, re);
      result := SelectTemplates(mode, text, allTemplates, searchName);
      assert StartsTable(allTemplates) == TemplateIndex(text);
    }
  }
}
