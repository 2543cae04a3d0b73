/**
 The handlers of dashboard/src/worker.ts that keep caches: slice bundles by function, and the index of the CFG record
 pack. What the bundle directory serves is a parameter; what the handlers answer must not depend on the caches.
 */
module DashboardWorker {
  import opened Wrappers
  import opened LittleEndian
  import opened CfgRecordIndex
  import SliceEngine

  datatype Bundle = Bundle(
    source: string, sourceId: string, startLine: int, endLine: int, totalLines: int,
    nodes: seq<SliceEngine.PdgNode>, edges: seq<SliceEngine.PdgEdge>)

  datatype Paths = Paths(indexPath: string, dataPath: string)

  /** What the served directory holds, and the calls into code outside this file. An absent path is an empty text. */
  datatype Site = Site(
    sliceBundle: string -> Result<Bundle>,
    resolveSource: Bundle -> Result<string>,
    excerpt: (string, int, int) -> string,
    cfgIndex: Result<Paths>,
    file: string -> Result<Bytes>,
    respond: (string, Location) -> Response,
    parseDetail: Bytes -> Result<string>)

  /** The bundle of a function, with its source filled in when only a source id was exported. */
  function BundleOf(site: Site, functionId: string): Result<Bundle> {
    match site.sliceBundle(functionId)
    case Err(message) => Err(message)
    case Ok(bundle) =>
      if bundle.source == "" && bundle.sourceId != "" then
        match site.resolveSource(bundle)
        case Err(message) => Err(message)
        case Ok(full) => Ok(bundle.(source := site.excerpt(full, bundle.startLine, bundle.endLine)))
      else Ok(bundle)
  }

  function PathsOf(site: Site): Result<Paths> {
    match site.cfgIndex
    case Err(message) => Err(message)
    case Ok(paths) =>
      if paths.indexPath == "" || paths.dataPath == "" then Err("CFG record pack not available in this bundle")
      else Ok(paths)
  }

  function RecordIndexOf(site: Site): Result<map<string, Location>> {
    match PathsOf(site)
    case Err(message) => Err(message)
    case Ok(paths) =>
      match site.file(paths.indexPath)
      case Err(message) => Err(message)
      case Ok(bytes) => ParseIndex(bytes)
  }

  /** The reply to a request for one function's CFG, as a worker without caches would give it. */
  function DetailOf(site: Site, functionId: string): Result<string> {
    match RecordIndexOf(site)
    case Err(message) => Err(message)
    case Ok(index) =>
      if functionId !in index then Err("CFG record not found for function")
      else
        match FetchResult(index[functionId], site.respond(PathsOf(site).value.dataPath, index[functionId]))
        case Err(message) => Err(message)
        case Ok(bytes) => site.parseDetail(bytes)
  }

  /** What the reply to a slice request may be, given the function's bundle. */
  ghost predicate IsSliceReply(bundle: Result<Bundle>, line: int, variable: string, direction: SliceEngine.Direction,
                               r: Result<SliceEngine.Slice>) {
    match bundle
    case Err(message) => r == Err(message)
    case Ok(b) =>
      && (r.Err? <==> forall n <- b.nodes :: !SliceEngine.Matches(n, line, variable))
      && (r.Ok? ==> SliceEngine.IsSliceOf(b.nodes, b.edges, line, variable, direction, b.totalLines, r.value))
  }

  /** The module-level caches of the worker. */
  class Worker {
    const site: Site
    var sliceBundleCache: map<string, Bundle>
    var cfgRecordIndex: Option<map<string, Location>>
    var cfgRecordPaths: Option<Paths>

    /** Whatever is cached is what loading it afresh would give. */
    ghost predicate Valid()
      reads this
    {
      && (forall id <- sliceBundleCache :: BundleOf(site, id) == Ok(sliceBundleCache[id]))
      && (cfgRecordPaths.Some? ==> PathsOf(site) == Ok(cfgRecordPaths.value))
      && (cfgRecordIndex.Some? ==> RecordIndexOf(site) == Ok(cfgRecordIndex.value) && cfgRecordPaths.Some?)
    }

    constructor (site: Site)
      ensures Valid() && this.site == site
    {
      this.site := site;
      sliceBundleCache, cfgRecordIndex, cfgRecordPaths := map[], None, None;
    }

    method LoadSliceBundle(functionId: string) returns (r: Result<Bundle>)
      requires Valid()
      modifies this`sliceBundleCache
      ensures Valid() && r == BundleOf(site, functionId)
      ensures r.Ok? ==> functionId in sliceBundleCache
      ensures r.Err? ==> sliceBundleCache == old(sliceBundleCache)
    {
      if functionId in sliceBundleCache {
        return Ok(sliceBundleCache[functionId]);
      }
      var fetched := site.sliceBundle(functionId);
      if fetched.Err? {
        return Err(fetched.message);
      }
      var bundle := fetched.value;
      if bundle.source == "" && bundle.sourceId != "" {
        var full := site.resolveSource(bundle);
        if full.Err? {
          return Err(full.message);
        }
        bundle := bundle.(source := site.excerpt(full.value, bundle.startLine, bundle.endLine));
      }
      sliceBundleCache := sliceBundleCache[functionId := bundle];
      return Ok(bundle);
    }

    /** The payload of a slice request, or the message of the error that is posted instead. */
    method HandleComputeSlice(functionId: string, line: int, variable: string, direction: SliceEngine.Direction)
      returns (r: Result<SliceEngine.Slice>)
      requires Valid()
      modifies this`sliceBundleCache
      ensures Valid() && IsSliceReply(BundleOf(site, functionId), line, variable, direction, r)
    {
      var loaded := LoadSliceBundle(functionId);
      if loaded.Err? {
        return Err(loaded.message);
      }
      var bundle := loaded.value;
      r := SliceEngine.ComputeSlice(bundle.nodes, bundle.edges, line, variable, direction, bundle.totalLines);
    }

    method LoadCfgRecordIndex() returns (r: Result<map<string, Location>>)
      requires Valid()
      modifies this`cfgRecordIndex, this`cfgRecordPaths
      ensures Valid() && r == RecordIndexOf(site)
      ensures r.Ok? ==> cfgRecordPaths == Some(PathsOf(site).value)
    {
      if cfgRecordIndex.Some? {
        return Ok(cfgRecordIndex.value);
      }
      var listed := site.cfgIndex;
      if listed.Err? {
        return Err(listed.message);
      }
      var paths := listed.value;
      if paths.indexPath == "" || paths.dataPath == "" {
        return Err("CFG record pack not available in this bundle");
      }
      cfgRecordPaths := Some(paths);
      var bytes := site.file(paths.indexPath);
      if bytes.Err? {
        return Err(bytes.message);
      }
      var parsed := ParseCfgRecordIndex(bytes.value);
      if parsed.Err? {
        return parsed;
      }
      cfgRecordIndex := Some(parsed.value);
      return parsed;
    }

    /** The reply does not depend on what was cached by earlier requests. */
    method HandleLoadCfgDetail(functionId: string) returns (r: Result<string>)
      requires Valid()
      modifies this`cfgRecordIndex, this`cfgRecordPaths
      ensures Valid() && r == DetailOf(site, functionId)
    {
      var index := LoadCfgRecordIndex();
      if index.Err? {
        return Err(index.message);
      }
      var paths := cfgRecordPaths.value;
      if functionId !in index.value {
        return Err("CFG record not found for function");
      }
      var location := index.value[functionId];
      var bytes := FetchResult(location, site.respond(paths.dataPath, location));
      if bytes.Err? {
        return Err(bytes.message);
      }
      return site.parseDetail(bytes.value);
    }
  }

  /** The site serves an exported pack at these paths, from a server that may or may not honour ranges. */
  ghost predicate ServesPack(site: Site, paths: Paths, records: seq<Record>) {
    && Exportable(records)
    && site.cfgIndex == Ok(paths) && paths.indexPath != "" && paths.dataPath != ""
    && site.file(paths.indexPath) == Ok(EncodeIndex(EntriesOf(records)))
    && forall i | 0 <= i < |records| :: ServesRecord(site, paths, records, i)
  }

  ghost predicate ServesRecord(site: Site, paths: Paths, records: seq<Record>, i: nat)
    requires i < |records|
  {
    var e := EntriesOf(records)[i];
    var response := site.respond(paths.dataPath, Location(e.offset, e.length));
    MayRespond(DataFile(records), e.offset, e.offset + e.length - 1, response)
  }

  /** From export to reply: a request for an exported function is answered from exactly the bytes exported for it. */
  lemma DetailIsExportedRecord(site: Site, paths: Paths, records: seq<Record>, i: nat)
    requires ServesPack(site, paths, records) && i < |records|
    ensures DetailOf(site, FormatUuid(records[i].functionId)) == site.parseDetail(records[i].content)
  {
    assert ServesRecord(site, paths, records, i);
    PackIndexed(records, i);
    var e := EntriesOf(records)[i];
    assert PathsOf(site) == Ok(paths) && RecordIndexOf(site) == ParseIndex(EncodeIndex(EntriesOf(records)));
    RecordFetched(records, i, site.respond(paths.dataPath, Location(e.offset, e.length)));
  }

  ghost predicate NotExported(records: seq<Record>, functionId: string) {
    forall i | 0 <= i < |records| :: FormatUuid(records[i].functionId) != functionId
  }

  /** A request for a function that was not exported, or to a site without a pack, is answered with an error. */
  lemma OtherDetailsFail(site: Site, paths: Paths, records: seq<Record>, functionId: string)
    ensures site.cfgIndex.Err? ==> DetailOf(site, functionId).Err?
    ensures site.cfgIndex == Ok(paths) && (paths.indexPath == "" || paths.dataPath == "") ==>
              DetailOf(site, functionId) == Err("CFG record pack not available in this bundle")
    ensures ServesPack(site, paths, records) && NotExported(records, functionId) ==>
              DetailOf(site, functionId) == Err("CFG record not found for function")
  {
    if ServesPack(site, paths, records) {
      PackFits(records);
      IndexRoundTrip(EntriesOf(records));
      if NotExported(records, functionId) {
        NotInTable(EntriesOf(records), functionId);
      }
    }
  }

  lemma {:induction false} NotInTable(entries: seq<IndexEntry>, id: string)
    requires forall i | 0 <= i < |entries| :: FormatUuid(entries[i].functionId) != id
    ensures id !in Table(entries, ToNumber)
  {
    if entries != [] {
      NotInTable(entries[..|entries| - 1], id);
    }
  }

  /**
   The bundle has the graph that is served; only a source that is missing is filled in, with the excerpt of its lines.
   */
  lemma BundleIsServed(site: Site, functionId: string, served: Bundle)
    requires site.sliceBundle(functionId) == Ok(served)
    ensures BundleOf(site, functionId).Ok? ==>
              var b := BundleOf(site, functionId).value;
              && b == served.(source := b.source)
              && (served.source != "" || served.sourceId == "" ==> b.source == served.source)
              && (served.source == "" && served.sourceId != "" ==>
                    exists full :: site.resolveSource(served) == Ok(full)
                                   && b.source == site.excerpt(full, served.startLine, served.endLine))
    ensures BundleOf(site, functionId).Err? <==>
              served.source == "" && served.sourceId != "" && site.resolveSource(served).Err?
  {
    if served.source == "" && served.sourceId != "" && site.resolveSource(served).Ok? {
      var full := site.resolveSource(served).value;
      assert site.resolveSource(served) == Ok(full);
    }
  }
}
