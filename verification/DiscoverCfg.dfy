/**
 The incremental CFG batch of `discover --with-cfg` (src/cli/discover_cfg.rs): group the functions by file, reuse
 what the index remembers, analyse the rest, add everything up and write the index back. CFG, PDG and taint
 construction are the parameter `analyze`; reading files is the parameter `sources`.
 */
module DiscoverCfg {
  import opened Wrappers
  import opened AnalysisStorage

  /** `cfg_language_id_from_path` only ever answers with a profile id, which is not empty. */
  type LanguageId = id: string | id != "" witness "java"

  datatype Node = Node(id: Uuid, name: string, filePath: Option<string>, codeHash: Option<string>)

  /** What one analysis finds: taint flows, and how many of them are vulnerable. */
  datatype Counts = Counts(flows: nat, vulnerable: nat)

  /** Everything outside this file that the batch calls. The options of the run are fixed inside `analyze`. */
  datatype Tools = Tools(
    language: string -> Option<LanguageId>,
    hashCode: string -> string,
    analyze: (string, string, string) -> Option<Counts>)

  datatype CfgSkipReason = UnsupportedLanguage | MissingSource | AnalysisError

  datatype CfgSkipEvent = CfgSkipEvent(filePath: string, symbol: string, reason: CfgSkipReason)

  datatype CfgFunctionWork = CfgFunctionWork(
    functionId: Uuid,
    indexEntry: Option<IndexEntry>,
    flowCount: nat,
    vulnerableCount: nat,
    fromCache: bool,
    skipPersist: bool)

  datatype Outcome = Done(work: CfgFunctionWork) | Skipped(reason: CfgSkipReason)

  datatype FileWorkGroup = FileWorkGroup(filePath: string, language: string, funcIndices: seq<nat>)

  type Sources = map<string, string>

  // ---------------------------------------------------------------- one function

  function ResolveCodeHash(tools: Tools, func: Node, source: string): string {
    match func.codeHash
    case Some(hash) => hash
    case None => tools.hashCode(source)
  }

  function CachedWork(func: Node, entry: IndexEntry): CfgFunctionWork {
    CfgFunctionWork(func.id, None, entry.flowCount, entry.vulnerableCount, true, true)
  }

  function TryFastCacheHit(func: Node, filePath: string, codeHash: string, index: Index): Option<CfgFunctionWork> {
    var key := StableFunctionKey(filePath, func.name, codeHash);
    if key !in index then None
    else if index[key].codeHash != codeHash || index[key].functionId != func.id then None
    else Some(CachedWork(func, index[key]))
  }

  function TryRemapCached(func: Node, filePath: string, codeHash: string, index: Index): Option<CfgFunctionWork> {
    var key := StableFunctionKey(filePath, func.name, codeHash);
    if key !in index then None
    else if index[key].codeHash != codeHash || index[key].functionId == func.id then None
    else Some(CachedWork(func, index[key]))
  }

  function ComputeFunctionCfg(tools: Tools, func: Node, filePath: string, codeHash: string): Option<CfgFunctionWork> {
    match tools.analyze(filePath, func.name, codeHash)
    case None => None
    case Some(found) =>
      var entry :=
        IndexEntry(StableFunctionKey(filePath, func.name, codeHash), func.id, codeHash, found.flows, found.vulnerable);
      Some(CfgFunctionWork(func.id, Some(entry), found.flows, found.vulnerable, false, false))
  }

  function AnalyzeFunctionInFile(tools: Tools, func: Node, filePath: string, source: string, index: Index):
    Option<CfgFunctionWork> {
    var codeHash := ResolveCodeHash(tools, func, source);
    if func.codeHash.Some? && TryFastCacheHit(func, filePath, codeHash, index).Some? then
      TryFastCacheHit(func, filePath, codeHash, index)
    else if func.codeHash.Some? && TryRemapCached(func, filePath, codeHash, index).Some? then
      TryRemapCached(func, filePath, codeHash, index)
    else
      ComputeFunctionCfg(tools, func, filePath, codeHash)
  }

  predicate CfgEligible(tools: Tools, func: Node) {
    func.filePath.Some? && tools.language(func.filePath.value).Some?
  }

  /** The simple reading of the batch: what happens to one function, looked at by itself. */
  function OutcomeOf(tools: Tools, sources: Sources, index: Index, func: Node): Outcome {
    if !CfgEligible(tools, func) then Skipped(UnsupportedLanguage)
    else if func.filePath.value !in sources then Skipped(MissingSource)
    else
      match AnalyzeFunctionInFile(tools, func, func.filePath.value, sources[func.filePath.value], index)
      case None => Skipped(AnalysisError)
      case Some(work) => Done(work)
  }

  function Outcomes(tools: Tools, sources: Sources, index: Index, functions: seq<Node>): (outcomes: seq<Outcome>)
    ensures |outcomes| == |functions|
    ensures forall i | 0 <= i < |functions| :: outcomes[i] == OutcomeOf(tools, sources, index, functions[i])
  {
    seq(|functions|, i requires 0 <= i < |functions| => OutcomeOf(tools, sources, index, functions[i]))
  }

  // ---------------------------------------------------------------- adding outcomes up

  /** The counters of a batch result. */
  datatype Tally = Tally(
    success: nat, errors: nat,
    unsupported: nat, missing: nat, failed: nat,
    flows: nat, vulnerable: nat,
    cacheHits: nat, recomputed: nat, skippedUnchanged: nat)
  {
    function Plus(other: Tally): Tally {
      Tally(success + other.success, errors + other.errors,
            unsupported + other.unsupported, missing + other.missing, failed + other.failed,
            flows + other.flows, vulnerable + other.vulnerable,
            cacheHits + other.cacheHits, recomputed + other.recomputed, skippedUnchanged + other.skippedUnchanged)
    }

    /** The same counters as if no skip had been counted. */
    function WithoutSkips(): Tally {
      this.(errors := 0, unsupported := 0, missing := 0, failed := 0)
    }
  }

  const ZERO := Tally(0, 0, 0, 0, 0, 0, 0, 0, 0, 0)

  function One(b: bool): nat {
    if b then 1 else 0
  }

  function SkipTally(reason: CfgSkipReason): Tally {
    ZERO.(errors := 1, unsupported := One(reason.UnsupportedLanguage?),
          missing := One(reason.MissingSource?), failed := One(reason.AnalysisError?))
  }

  function WorkTally(w: CfgFunctionWork): Tally {
    ZERO.(success := 1, flows := w.flowCount, vulnerable := w.vulnerableCount,
          cacheHits := One(w.fromCache), recomputed := One(!w.fromCache), skippedUnchanged := One(w.skipPersist))
  }

  function Contribution(outcome: Outcome): Tally {
    match outcome
    case Done(w) => WorkTally(w)
    case Skipped(reason) => SkipTally(reason)
  }

  /** The per-function fold that every grouping and every order of the groups must agree with. */
  function Total(outcomes: seq<Outcome>): Tally {
    if outcomes == [] then ZERO
    else Total(outcomes[..|outcomes| - 1]).Plus(Contribution(outcomes[|outcomes| - 1]))
  }

  /** The fold over the functions whose position is in `done`. */
  function TotalOver(outcomes: seq<Outcome>, done: set<nat>): Tally {
    if outcomes == [] then ZERO
    else
      var n := |outcomes| - 1;
      var before := TotalOver(outcomes[..n], done);
      if n in done then before.Plus(Contribution(outcomes[n])) else before
  }

  lemma {:induction false} TotalOverAdd(outcomes: seq<Outcome>, done: set<nat>, i: nat)
    requires i !in done
    ensures TotalOver(outcomes, done + {i}) ==
            if i < |outcomes| then TotalOver(outcomes, done).Plus(Contribution(outcomes[i]))
            else TotalOver(outcomes, done)
  {
    if outcomes != [] {
      TotalOverAdd(outcomes[..|outcomes| - 1], done, i);
    }
  }

  lemma {:induction false} TotalOverAll(outcomes: seq<Outcome>, done: set<nat>)
    requires forall i | 0 <= i < |outcomes| :: i in done
    ensures TotalOver(outcomes, done) == Total(outcomes)
  {
    if outcomes != [] {
      TotalOverAll(outcomes[..|outcomes| - 1], done);
    }
  }

  /** The event that reports why this function was skipped. */
  function SkipEvent(func: Node, reason: CfgSkipReason): CfgSkipEvent {
    CfgSkipEvent(if func.filePath.Some? then func.filePath.value else "<unknown>", func.name, reason)
  }

  /** What a verbose run reports of one function: nothing, or the reason for its skip. */
  function Events(func: Node, outcome: Outcome): multiset<CfgSkipEvent> {
    match outcome
    case Done(_) => multiset{}
    case Skipped(reason) => multiset{SkipEvent(func, reason)}
  }

  /** The reported skips of the functions whose position is in `done`. */
  function EventsOver(functions: seq<Node>, outcomes: seq<Outcome>, done: set<nat>): multiset<CfgSkipEvent>
    requires |functions| == |outcomes|
  {
    if outcomes == [] then multiset{}
    else
      var n := |outcomes| - 1;
      EventsOver(functions[..n], outcomes[..n], done) +
      if n in done then Events(functions[n], outcomes[n]) else multiset{}
  }

  /** The reported skips of all functions. */
  function AllEvents(functions: seq<Node>, outcomes: seq<Outcome>): multiset<CfgSkipEvent>
    requires |functions| == |outcomes|
  {
    if outcomes == [] then multiset{}
    else
      var n := |outcomes| - 1;
      AllEvents(functions[..n], outcomes[..n]) + Events(functions[n], outcomes[n])
  }

  lemma {:induction false} EventsOverAdd(functions: seq<Node>, outcomes: seq<Outcome>, done: set<nat>, i: nat)
    requires |functions| == |outcomes| && i !in done
    ensures EventsOver(functions, outcomes, done + {i})
         == EventsOver(functions, outcomes, done)
          + if i < |outcomes| then Events(functions[i], outcomes[i]) else multiset{}
  {
    if outcomes != [] {
      var n := |outcomes| - 1;
      EventsOverAdd(functions[..n], outcomes[..n], done, i);
      if i < n {
        assert functions[..n][i] == functions[i] && outcomes[..n][i] == outcomes[i];
      }
      var before, last := EventsOver(functions[..n], outcomes[..n], done), Events(functions[n], outcomes[n]);
      assert n in done + {i} <==> n in done || n == i;
      if i < n && n in done {
        assert before + Events(functions[i], outcomes[i]) + last == before + last + Events(functions[i], outcomes[i]);
      }
    }
  }

  lemma {:induction false} EventsOverNone(functions: seq<Node>, outcomes: seq<Outcome>)
    requires |functions| == |outcomes|
    ensures EventsOver(functions, outcomes, {}) == multiset{}
  {
    if outcomes != [] {
      EventsOverNone(functions[..|outcomes| - 1], outcomes[..|outcomes| - 1]);
    }
  }

  lemma {:induction false} EventsOverAll(functions: seq<Node>, outcomes: seq<Outcome>, done: set<nat>)
    requires |functions| == |outcomes| && forall i | 0 <= i < |outcomes| :: i in done
    ensures EventsOver(functions, outcomes, done) == AllEvents(functions, outcomes)
  {
    if outcomes != [] {
      EventsOverAll(functions[..|outcomes| - 1], outcomes[..|outcomes| - 1], done);
    }
  }

  /** There are as many events as errors. */
  lemma {:induction false} EventsAreErrors(functions: seq<Node>, outcomes: seq<Outcome>)
    requires |functions| == |outcomes|
    ensures |AllEvents(functions, outcomes)| == Total(outcomes).errors
  {
    if outcomes != [] {
      EventsAreErrors(functions[..|outcomes| - 1], outcomes[..|outcomes| - 1]);
    }
  }

  /** The entries that the batch hands back, in function order. */
  function NewEntries(outcomes: seq<Outcome>): seq<IndexEntry> {
    if outcomes == [] then []
    else
      var last := outcomes[|outcomes| - 1];
      NewEntries(outcomes[..|outcomes| - 1]) +
      if last.Done? && last.work.indexEntry.Some? then [last.work.indexEntry.value] else []
  }

  /** The index after writing the entries of the functions in `done`, in function order. */
  function IndexOver(index: Index, outcomes: seq<Outcome>, done: set<nat>): Index {
    if outcomes == [] then index
    else
      var n := |outcomes| - 1;
      var before := IndexOver(index, outcomes[..n], done);
      if n in done && outcomes[n].Done? && outcomes[n].work.indexEntry.Some? then
        before[outcomes[n].work.indexEntry.value.stableKey := outcomes[n].work.indexEntry.value]
      else before
  }

  ghost predicate WritesKey(outcome: Outcome, key: string) {
    outcome.Done? && outcome.work.indexEntry.Some? && outcome.work.indexEntry.value.stableKey == key
  }

  /** Writing one more entry late is the same as writing it in its place, when no later function owns its key. */
  lemma {:induction false} IndexOverAdd(index: Index, outcomes: seq<Outcome>, done: set<nat>, i: nat)
    requires i !in done && i < |outcomes|
    requires outcomes[i].Done? && outcomes[i].work.indexEntry.Some?
    requires forall j | i < j < |outcomes| && j in done ::
               !WritesKey(outcomes[j], outcomes[i].work.indexEntry.value.stableKey)
    ensures var entry := outcomes[i].work.indexEntry.value;
            IndexOver(index, outcomes, done + {i}) == IndexOver(index, outcomes, done)[entry.stableKey := entry]
  {
    var n := |outcomes| - 1;
    if i == n {
      IndexOverBeyond(index, outcomes[..n], done, i);
    } else {
      IndexOverAdd(index, outcomes[..n], done, i);
      assert n in done ==> !WritesKey(outcomes[n], outcomes[i].work.indexEntry.value.stableKey);
    }
  }

  /** A position that writes nothing, or lies beyond the list, may be added freely. */
  lemma {:induction false} IndexOverBeyond(index: Index, outcomes: seq<Outcome>, done: set<nat>, i: nat)
    requires i < |outcomes| ==> !(outcomes[i].Done? && outcomes[i].work.indexEntry.Some?)
    ensures IndexOver(index, outcomes, done + {i}) == IndexOver(index, outcomes, done)
  {
    if outcomes != [] {
      IndexOverBeyond(index, outcomes[..|outcomes| - 1], done, i);
    }
  }

  lemma {:induction false} IndexOverAll(index: Index, outcomes: seq<Outcome>, done: set<nat>)
    requires forall i | 0 <= i < |outcomes| :: i in done
    ensures IndexOver(index, outcomes, done) == Inserted(index, NewEntries(outcomes))
  {
    if outcomes != [] {
      var n := |outcomes| - 1;
      IndexOverAll(index, outcomes[..n], done);
      var entries := NewEntries(outcomes);
      if outcomes[n].Done? && outcomes[n].work.indexEntry.Some? {
        assert entries[..|entries| - 1] == NewEntries(outcomes[..n]);
      } else {
        assert entries == NewEntries(outcomes[..n]);
      }
    }
  }

  lemma {:induction false} IndexOverNone(index: Index, outcomes: seq<Outcome>)
    ensures IndexOver(index, outcomes, {}) == index
    ensures TotalOver(outcomes, {}) == ZERO
  {
    if outcomes != [] {
      IndexOverNone(index, outcomes[..|outcomes| - 1]);
    }
  }

  // ---------------------------------------------------------------- keys and ids of the current graph

  /** The keys that `active_stable_keys` keeps alive; without sources, functions without a hash have none. */
  function ActiveKey(tools: Tools, func: Node, sources: Option<Sources>): Option<string> {
    if func.filePath.None? then None
    else if func.codeHash.Some? then Some(StableFunctionKey(func.filePath.value, func.name, func.codeHash.value))
    else if sources.Some? && func.filePath.value in sources.value then
      Some(StableFunctionKey(func.filePath.value, func.name,
        ResolveCodeHash(tools, func, sources.value[func.filePath.value])))
    else None
  }

  function ActiveKeys(tools: Tools, functions: seq<Node>, sources: Option<Sources>): set<string> {
    set i | 0 <= i < |functions| && ActiveKey(tools, functions[i], sources).Some? ::
      ActiveKey(tools, functions[i], sources).value
  }

  function SyncEntries(functions: seq<Node>): seq<SyncEntry> {
    if functions == [] then []
    else
      var f := functions[|functions| - 1];
      SyncEntries(functions[..|functions| - 1]) +
      if f.filePath.Some? && f.codeHash.Some? then [SyncEntry(f.id, f.name, f.filePath.value, f.codeHash.value)] else []
  }

  /** What id sync and purge leave of the index. */
  function Settled(tools: Tools, functions: seq<Node>, sources: Option<Sources>, index: Index): Index {
    Restricted(Synced(index, SyncEntries(functions)), ActiveKeys(tools, functions, sources))
  }

  // ---------------------------------------------------------------- the shortcut

  predicate ShortcutEligible(tools: Tools, func: Node) {
    CfgEligible(tools, func) && func.codeHash.Some?
  }

  /** The index remembers this function with this very hash. */
  predicate Remembered(func: Node, index: Index)
    requires func.filePath.Some? && func.codeHash.Some?
  {
    var key := StableFunctionKey(func.filePath.value, func.name, func.codeHash.value);
    key in index && index[key].codeHash == func.codeHash.value
  }

  predicate SomeEligible(tools: Tools, functions: seq<Node>) {
    exists i | 0 <= i < |functions| :: ShortcutEligible(tools, functions[i])
  }

  predicate AllRemembered(tools: Tools, functions: seq<Node>, index: Index) {
    forall i | 0 <= i < |functions| && ShortcutEligible(tools, functions[i]) :: Remembered(functions[i], index)
  }

  /** When the whole pass may be skipped. */
  predicate ShortcutFires(tools: Tools, functions: seq<Node>, index: Index) {
    SomeEligible(tools, functions) && AllRemembered(tools, functions, index)
  }

  function ShortcutContribution(tools: Tools, func: Node, index: Index): Tally {
    if ShortcutEligible(tools, func) && Remembered(func, index) then
      WorkTally(CachedWork(func, index[StableFunctionKey(func.filePath.value, func.name, func.codeHash.value)]))
    else ZERO
  }

  function ShortcutTotal(tools: Tools, functions: seq<Node>, index: Index): Tally {
    if functions == [] then ZERO
    else
      ShortcutTotal(tools, functions[..|functions| - 1], index)
        .Plus(ShortcutContribution(tools, functions[|functions| - 1], index))
  }

  // ---------------------------------------------------------------- counting, from the inputs alone

  /** How many of the functions are such. */
  function Number(functions: seq<Node>, such: Node -> bool): nat {
    if functions == [] then 0
    else Number(functions[..|functions| - 1], such) + One(such(functions[|functions| - 1]))
  }

  function Sum(functions: seq<Node>, value: Node -> nat): nat {
    if functions == [] then 0
    else Sum(functions[..|functions| - 1], value) + value(functions[|functions| - 1])
  }

  /** It has no path, or its path is of no language that has a CFG. */
  function NoLanguage(tools: Tools): Node -> bool {
    (f: Node) => f.filePath.None? || tools.language(f.filePath.value).None?
  }

  function NoSource(tools: Tools, sources: Sources): Node -> bool {
    (f: Node) => f.filePath.Some? && tools.language(f.filePath.value).Some? && f.filePath.value !in sources
  }

  function Readable(tools: Tools, sources: Sources, f: Node): bool {
    f.filePath.Some? && tools.language(f.filePath.value).Some? && f.filePath.value in sources
  }

  /** What a fresh analysis of the function finds, under its recorded hash or else the hash of its source. */
  function Finding(tools: Tools, sources: Sources, f: Node): Option<Counts> {
    if !Readable(tools, sources, f) then None
    else
      var path := f.filePath.value;
      tools.analyze(path, f.name, if f.codeHash.Some? then f.codeHash.value else tools.hashCode(sources[path]))
  }

  function Fails(tools: Tools, sources: Sources): Node -> bool {
    (f: Node) => Readable(tools, sources, f) && Finding(tools, sources, f).None?
  }

  function Succeeds(tools: Tools, sources: Sources): Node -> bool {
    (f: Node) => Finding(tools, sources, f).Some?
  }

  function FlowsOf(tools: Tools, sources: Sources): Node -> nat {
    (f: Node) => match Finding(tools, sources, f) case None => 0 case Some(found) => found.flows
  }

  function VulnerableOf(tools: Tools, sources: Sources): Node -> nat {
    (f: Node) => match Finding(tools, sources, f) case None => 0 case Some(found) => found.vulnerable
  }

  /** The index has an entry under the function's recorded hash, and its source is there. */
  function Reused(tools: Tools, sources: Sources, index: Index): Node -> bool {
    (f: Node) =>
      && Readable(tools, sources, f) && f.codeHash.Some?
      && var key := StableFunctionKey(f.filePath.value, f.name, f.codeHash.value);
         key in index && index[key].codeHash == f.codeHash.value
  }

  /** Of the skips, those for want of a language or a source depend on neither index nor analysis. */
  lemma {:induction false} PassSkips(tools: Tools, sources: Sources, index: Index, functions: seq<Node>)
    ensures var t := Total(Outcomes(tools, sources, index, functions));
            && t.unsupported == Number(functions, NoLanguage(tools))
            && t.missing == Number(functions, NoSource(tools, sources))
            && t.cacheHits == Number(functions, Reused(tools, sources, index))
  {
    if functions != [] {
      PassSkips(tools, sources, index, functions[..|functions| - 1]);
      TotalSnoc(tools, sources, index, functions);
      OneSkips(tools, sources, index, functions[|functions| - 1]);
    }
  }

  lemma OneSkips(tools: Tools, sources: Sources, index: Index, f: Node)
    ensures var c := Contribution(OutcomeOf(tools, sources, index, f));
            && c.unsupported == One(NoLanguage(tools)(f)) && c.missing == One(NoSource(tools, sources)(f))
            && c.cacheHits == One(Reused(tools, sources, index)(f))
  {
  }

  /** A completed function counts as its own: the work carries its id. */
  lemma WorkIsOfFunction(tools: Tools, sources: Sources, index: Index, f: Node)
    requires OutcomeOf(tools, sources, index, f).Done?
    ensures OutcomeOf(tools, sources, index, f).work.functionId == f.id
  {
  }

  /** What the index says of a function under its recorded hash, if it has a CFG language. */
  function EntryFor(tools: Tools, index: Index, f: Node): Option<IndexEntry> {
    if f.filePath.None? || f.codeHash.None? || tools.language(f.filePath.value).None? then None
    else
      var key := StableFunctionKey(f.filePath.value, f.name, f.codeHash.value);
      if key in index && index[key].codeHash == f.codeHash.value then Some(index[key]) else None
  }

  function Known(tools: Tools, index: Index): Node -> bool {
    (f: Node) => EntryFor(tools, index, f).Some?
  }

  function EntryFlows(tools: Tools, index: Index): Node -> nat {
    (f: Node) => match EntryFor(tools, index, f) case None => 0 case Some(e) => e.flowCount
  }

  function EntryVulnerable(tools: Tools, index: Index): Node -> nat {
    (f: Node) => match EntryFor(tools, index, f) case None => 0 case Some(e) => e.vulnerableCount
  }

  lemma OneFromEntry(tools: Tools, f: Node, index: Index)
    ensures var c := ShortcutContribution(tools, f, index);
            && c.success == One(Known(tools, index)(f))
            && c.flows == EntryFlows(tools, index)(f) && c.vulnerable == EntryVulnerable(tools, index)(f)
  {
  }

  /** The shortcut counts the functions that the index knows, and adds up what it says of them. */
  lemma {:induction false} ShortcutFromEntries(tools: Tools, functions: seq<Node>, index: Index)
    ensures var t := ShortcutTotal(tools, functions, index);
            && t.success == Number(functions, Known(tools, index))
            && t.flows == Sum(functions, EntryFlows(tools, index))
            && t.vulnerable == Sum(functions, EntryVulnerable(tools, index))
  {
    if functions != [] {
      ShortcutFromEntries(tools, functions[..|functions| - 1], index);
      OneFromEntry(tools, functions[|functions| - 1], index);
    }
  }

  // ---------------------------------------------------------------- the whole batch as a function

  /** The per-function fold of the full pass, and the index it leaves behind. */
  function FullPass(tools: Tools, sources: Sources, functions: seq<Node>, index: Index): (Tally, Index) {
    var outcomes := Outcomes(tools, sources, index, functions);
    (Total(outcomes), Settled(tools, functions, Some(sources), Inserted(index, NewEntries(outcomes))))
  }

  /** What one run reports and leaves behind: no grouping, no order of groups, no loops. */
  function Batch(tools: Tools, sources: Sources, functions: seq<Node>, index: Index): (Tally, Index) {
    if ShortcutFires(tools, functions, index) then
      (ShortcutTotal(tools, functions, index), Settled(tools, functions, None, index))
    else FullPass(tools, sources, functions, index)
  }

  /**
   The skips of one run: none unless it is verbose, none when the shortcut fires, else one for every function skipped.
   */
  function ReportedSkips(tools: Tools, sources: Sources, functions: seq<Node>, index: Index, verbose: bool):
    multiset<CfgSkipEvent> {
    if ShortcutFires(tools, functions, index) || !verbose then multiset{}
    else AllEvents(functions, Outcomes(tools, sources, index, functions))
  }

  // ---------------------------------------------------------------- the batch as the program runs it

  /** The aggregated result, updated in place while outcomes come in. */
  class CfgAnalysisBatchResult {
    var successCount: nat
    var errorCount: nat
    var skipUnsupportedLanguage: nat
    var skipMissingSource: nat
    var skipAnalysisError: nat
    var skips: seq<CfgSkipEvent>
    var totalFlows: nat
    var vulnerableFlows: nat
    var cacheHits: nat
    var recomputed: nat
    var skippedUnchanged: nat
    var archiveUnchanged: bool
    var indexEntries: seq<IndexEntry>

    constructor ()
      ensures Counters() == ZERO && skips == [] && indexEntries == [] && !archiveUnchanged
    {
      successCount, errorCount := 0, 0;
      skipUnsupportedLanguage, skipMissingSource, skipAnalysisError := 0, 0, 0;
      skips, indexEntries := [], [];
      totalFlows, vulnerableFlows := 0, 0;
      cacheHits, recomputed, skippedUnchanged := 0, 0, 0;
      archiveUnchanged := false;
    }

    /** The result of a pass that was skipped because everything was remembered. */
    constructor Unchanged(t: Tally)
      requires t == t.WithoutSkips() && t.recomputed == 0
      ensures Counters() == t && skips == [] && indexEntries == [] && archiveUnchanged
    {
      successCount, cacheHits, skippedUnchanged := t.success, t.cacheHits, t.skippedUnchanged;
      totalFlows, vulnerableFlows := t.flows, t.vulnerable;
      errorCount, recomputed := 0, 0;
      skipUnsupportedLanguage, skipMissingSource, skipAnalysisError := 0, 0, 0;
      skips, indexEntries := [], [];
      archiveUnchanged := true;
    }

    function Counters(): Tally
      reads this
    {
      Tally(successCount, errorCount, skipUnsupportedLanguage, skipMissingSource, skipAnalysisError,
            totalFlows, vulnerableFlows, cacheHits, recomputed, skippedUnchanged)
    }

    method RecordSkip(reason: CfgSkipReason, filePath: string, symbol: string, verbose: bool)
      modifies this
      ensures Counters() == old(Counters()).Plus(SkipTally(reason))
      ensures errorCount == old(errorCount) + 1
      ensures skipUnsupportedLanguage == old(skipUnsupportedLanguage) + One(reason == UnsupportedLanguage)
      ensures skipMissingSource == old(skipMissingSource) + One(reason == MissingSource)
      ensures skipAnalysisError == old(skipAnalysisError) + One(reason == AnalysisError)
      ensures skips == old(skips) + if verbose then [CfgSkipEvent(filePath, symbol, reason)] else []
      ensures indexEntries == old(indexEntries) && archiveUnchanged == old(archiveUnchanged)
    {
      errorCount := errorCount + 1;
      match reason {
        case UnsupportedLanguage => skipUnsupportedLanguage := skipUnsupportedLanguage + 1;
        case MissingSource => skipMissingSource := skipMissingSource + 1;
        case AnalysisError => skipAnalysisError := skipAnalysisError + 1;
      }
      if verbose {
        skips := skips + [CfgSkipEvent(filePath, symbol, reason)];
      }
    }

    method RecordWork(w: CfgFunctionWork)
      modifies this
      ensures Counters() == old(Counters()).Plus(WorkTally(w))
      ensures successCount == old(successCount) + 1
      ensures totalFlows == old(totalFlows) + w.flowCount && vulnerableFlows == old(vulnerableFlows) + w.vulnerableCount
      ensures cacheHits == old(cacheHits) + One(w.fromCache) && recomputed == old(recomputed) + One(!w.fromCache)
      ensures skippedUnchanged == old(skippedUnchanged) + One(w.skipPersist)
      ensures indexEntries == old(indexEntries) + if w.indexEntry.Some? then [w.indexEntry.value] else []
      ensures skips == old(skips) && archiveUnchanged == old(archiveUnchanged)
    {
      if w.fromCache {
        cacheHits := cacheHits + 1;
      } else {
        recomputed := recomputed + 1;
      }
      if w.skipPersist {
        skippedUnchanged := skippedUnchanged + 1;
      }
      successCount := successCount + 1;
      totalFlows := totalFlows + w.flowCount;
      vulnerableFlows := vulnerableFlows + w.vulnerableCount;
      if w.indexEntry.Some? {
        indexEntries := indexEntries + [w.indexEntry.value];
      }
    }
  }

  /** The positions of the functions of one file, in ascending order. */
  function PositionsOf(functions: seq<Node>, path: string): (positions: seq<nat>)
    ensures forall i :: i in positions <==> 0 <= i < |functions| && functions[i].filePath == Some(path)
    ensures forall j | 0 <= j < |positions| :: positions[j] < |functions|
    ensures forall j, k | 0 <= j < k < |positions| :: positions[j] < positions[k]
  {
    if functions == [] then []
    else
      var n := |functions| - 1;
      var before := PositionsOf(functions[..n], path);
      if functions[n].filePath == Some(path) then before + [n] else before
  }

  ghost predicate GroupFor(tools: Tools, functions: seq<Node>, group: FileWorkGroup) {
    && tools.language(group.filePath) == Some(group.language)
    && group.funcIndices == PositionsOf(functions, group.filePath)
    && (forall k | 0 <= k < |group.funcIndices| :: group.funcIndices[k] < |functions|)
    && group.funcIndices != []
  }

  /** The groups are those of the eligible files, one each, in some order. */
  ghost predicate Grouping(tools: Tools, functions: seq<Node>, groups: seq<FileWorkGroup>) {
    && (forall g | 0 <= g < |groups| :: GroupFor(tools, functions, groups[g]))
    && (forall g, h | 0 <= g < h < |groups| :: groups[g].filePath != groups[h].filePath)
    && (forall i | 0 <= i < |functions| && CfgEligible(tools, functions[i]) ::
         Listed(groups, functions[i].filePath.value))
  }

  ghost predicate Listed(groups: seq<FileWorkGroup>, path: string) {
    exists g | 0 <= g < |groups| :: groups[g].filePath == path
  }

  lemma {:induction false} NoPositions(functions: seq<Node>, path: string)
    requires forall i | 0 <= i < |functions| :: functions[i].filePath != Some(path)
    ensures PositionsOf(functions, path) == []
  {
    if functions != [] {
      NoPositions(functions[..|functions| - 1], path);
    }
  }

  /** The table under construction: one group for each eligible file among the functions seen so far. */
  ghost predicate GroupedByFile(tools: Tools, functions: seq<Node>, byFile: map<string, FileWorkGroup>) {
    && (forall path <- byFile :: byFile[path].filePath == path && GroupFor(tools, functions, byFile[path]))
    && (forall i | 0 <= i < |functions| && CfgEligible(tools, functions[i]) :: functions[i].filePath.value in byFile)
  }

  lemma {:induction false} PositionsNext(functions: seq<Node>, n: nat, path: string)
    requires n < |functions|
    ensures PositionsOf(functions[..n + 1], path)
         == PositionsOf(functions[..n], path) + if functions[n].filePath == Some(path) then [n] else []
  {
    assert functions[..n + 1][..n] == functions[..n];
  }

  lemma GroupForKept(tools: Tools, functions: seq<Node>, n: nat, group: FileWorkGroup)
    requires n < |functions| && GroupFor(tools, functions[..n], group) && functions[n].filePath != Some(group.filePath)
    ensures GroupFor(tools, functions[..n + 1], group)
  {
    PositionsNext(functions, n, group.filePath);
  }

  lemma {:induction false} GroupForGrown(tools: Tools, functions: seq<Node>, n: nat, path: string)
    requires n < |functions| && functions[n].filePath == Some(path) && CfgEligible(tools, functions[n])
    ensures GroupFor(tools, functions[..n + 1],
                     FileWorkGroup(path, tools.language(path).value, PositionsOf(functions[..n], path) + [n]))
  {
    PositionsNext(functions, n, path);
  }

  /** A function without a group changes no group. */
  lemma GroupedByFileSkip(tools: Tools, functions: seq<Node>, n: nat, byFile: map<string, FileWorkGroup>)
    requires n < |functions| && GroupedByFile(tools, functions[..n], byFile) && !CfgEligible(tools, functions[n])
    ensures GroupedByFile(tools, functions[..n + 1], byFile)
  {
    forall path <- byFile ensures GroupFor(tools, functions[..n + 1], byFile[path]) {
      assert GroupFor(tools, functions[..n], byFile[path]);
      GroupForKept(tools, functions, n, byFile[path]);
    }
  }

  /** Any other function goes to the end of the group of its file. */
  lemma GroupedByFileStep(tools: Tools, functions: seq<Node>, n: nat, byFile: map<string, FileWorkGroup>)
    requires n < |functions| && GroupedByFile(tools, functions[..n], byFile) && CfgEligible(tools, functions[n])
    ensures var path := functions[n].filePath.value;
            var indices := if path in byFile then byFile[path].funcIndices else [];
            var group := FileWorkGroup(path, tools.language(path).value, indices + [n]);
            GroupedByFile(tools, functions[..n + 1], byFile[path := group])
  {
    var path := functions[n].filePath.value;
    forall other <- byFile | other != path ensures GroupFor(tools, functions[..n + 1], byFile[other]) {
      GroupForKept(tools, functions, n, byFile[other]);
    }
    GroupForGrown(tools, functions, n, path);
    if path !in byFile {
      NoPositions(functions[..n], path);
    }
  }

  /** Collect the functions of each file; the groups come out in whatever order the hash map yields them. */
  method GroupWorkItemsByFile(tools: Tools, functions: seq<Node>) returns (groups: seq<FileWorkGroup>)
    ensures Grouping(tools, functions, groups)
  {
    var byFile: map<string, FileWorkGroup> := map[];
    for idx := 0 to |functions|
      invariant GroupedByFile(tools, functions[..idx], byFile)
    {
      if CfgEligible(tools, functions[idx]) {
        GroupedByFileStep(tools, functions, idx, byFile);
      } else {
        GroupedByFileSkip(tools, functions, idx, byFile);
      }
      var func := functions[idx];
      if func.filePath.None? {
        continue;
      }
      var filePath := func.filePath.value;
      var known := tools.language(filePath);
      var language: string := if known.Some? then known.value else "";
      if language == "" {
        continue;
      }
      var group := if filePath in byFile then byFile[filePath] else FileWorkGroup(filePath, language, []);
      byFile := byFile[filePath := group.(funcIndices := group.funcIndices + [idx])];
    }
    assert functions[..|functions|] == functions;
    groups := IntoValues(tools, functions, byFile);
  }

  /** `into_values().collect()` of the hash map: every value once, in no particular order. */
  method IntoValues(tools: Tools, functions: seq<Node>, byFile: map<string, FileWorkGroup>)
    returns (groups: seq<FileWorkGroup>)
    requires GroupedByFile(tools, functions, byFile)
    ensures Grouping(tools, functions, groups)
  {
    groups := [];
    var pending := byFile.Keys;
    while pending != {}
      invariant pending <= byFile.Keys && Emitted(tools, functions, byFile, pending, groups)
      decreases |pending|
    {
      var path :| path in pending;
      EmitOne(tools, functions, byFile, pending, groups, path);
      pending := pending - {path};
      groups := groups + [byFile[path]];
    }
  }

  /** The groups of all files that are not pending any more. */
  ghost predicate Emitted(tools: Tools, functions: seq<Node>, byFile: map<string, FileWorkGroup>, pending: set<string>,
                          groups: seq<FileWorkGroup>) {
    && (forall g | 0 <= g < |groups| :: GroupFor(tools, functions, groups[g]) && groups[g].filePath !in pending)
    && (forall g, h | 0 <= g < h < |groups| :: groups[g].filePath != groups[h].filePath)
    && (forall path <- byFile :: path in pending || Listed(groups, path))
  }

  lemma EmitOne(tools: Tools, functions: seq<Node>, byFile: map<string, FileWorkGroup>, pending: set<string>,
                groups: seq<FileWorkGroup>, path: string)
    requires path in pending && pending <= byFile.Keys && Emitted(tools, functions, byFile, pending, groups)
    requires byFile[path].filePath == path && GroupFor(tools, functions, byFile[path])
    ensures Emitted(tools, functions, byFile, pending - {path}, groups + [byFile[path]])
  {
    var more := groups + [byFile[path]];
    forall p <- byFile ensures p in pending - {path} || Listed(more, p) {
      ListedNext(more, |groups|, p);
      assert more[..|groups|] == groups && more[..|groups| + 1] == more;
    }
  }

  ghost predicate GroupOutcomes(tools: Tools, sources: Sources, index: Index, functions: seq<Node>,
                                group: FileWorkGroup, outcomes: seq<Outcome>)
    requires GroupFor(tools, functions, group)
  {
    && |outcomes| == |group.funcIndices|
    && forall k | 0 <= k < |outcomes| ::
         outcomes[k] == OutcomeOf(tools, sources, index, functions[group.funcIndices[k]])
  }

  lemma OutcomeInFile(tools: Tools, sources: Sources, index: Index, func: Node, path: string)
    requires func.filePath == Some(path) && CfgEligible(tools, func) && path in sources
    ensures OutcomeOf(tools, sources, index, func)
         == var work := AnalyzeFunctionInFile(tools, func, path, sources[path], index);
            if work.Some? then Done(work.value) else Skipped(AnalysisError)
  {
  }

  /** Analyse the functions of one file, in order; without the source every one of them is skipped. */
  method ProcessFileGroup(tools: Tools, sources: Sources, index: Index, functions: seq<Node>, group: FileWorkGroup)
    returns (outcomes: seq<Outcome>)
    requires GroupFor(tools, functions, group)
    ensures GroupOutcomes(tools, sources, index, functions, group, outcomes)
  {
    assert forall k | 0 <= k < |group.funcIndices| :: group.funcIndices[k] in group.funcIndices;
    if group.filePath !in sources {
      return seq(|group.funcIndices|, _ => Skipped(MissingSource));
    }
    var source := sources[group.filePath];
    outcomes := [];
    for k := 0 to |group.funcIndices|
      invariant |outcomes| == k
      invariant forall j | 0 <= j < k ::
                  outcomes[j] == OutcomeOf(tools, sources, index, functions[group.funcIndices[j]])
    {
      OutcomeInFile(tools, sources, index, functions[group.funcIndices[k]], group.filePath);
      var work := AnalyzeFunctionInFile(tools, functions[group.funcIndices[k]], group.filePath, source, index);
      outcomes := outcomes + [if work.Some? then Done(work.value) else Skipped(AnalysisError)];
    }
  }

  method ActiveStableKeys(tools: Tools, functions: seq<Node>, sources: Option<Sources>) returns (keys: set<string>)
    ensures keys == ActiveKeys(tools, functions, sources)
  {
    keys := {};
    for i := 0 to |functions|
      invariant keys == ActiveKeys(tools, functions[..i], sources)
    {
      var func := functions[i];
      ghost var added := ActiveKey(tools, func, sources);
      assert ActiveKeys(tools, functions[..i + 1], sources)
          == ActiveKeys(tools, functions[..i], sources) + if added.Some? then {added.value} else {} by {
        assert forall j | 0 <= j < i :: functions[..i + 1][j] == functions[..i][j];
        assert functions[..i + 1][i] == func;
      }
      if func.filePath.None? {
        continue;
      }
      var hash: string;
      if func.codeHash.Some? {
        hash := func.codeHash.value;
      } else if sources.Some? {
        if func.filePath.value !in sources.value {
          continue;
        }
        hash := ResolveCodeHash(tools, func, sources.value[func.filePath.value]);
      } else {
        continue;
      }
      keys := keys + {StableFunctionKey(func.filePath.value, func.name, hash)};
    }
    assert functions[..|functions|] == functions;
  }

  method SyncStorageFunctionIds(storage: Storage, functions: seq<Node>)
    modifies storage
    ensures storage.index == Synced(old(storage.index), SyncEntries(functions))
  {
    var refs: seq<SyncEntry> := [];
    for i := 0 to |functions|
      invariant refs == SyncEntries(functions[..i])
    {
      assert functions[..i + 1][..i] == functions[..i];
      var f := functions[i];
      if f.filePath.Some? && f.codeHash.Some? {
        refs := refs + [SyncEntry(f.id, f.name, f.filePath.value, f.codeHash.value)];
      }
    }
    assert functions[..|functions|] == functions;
    var _ := storage.SyncIndexFunctionIds(refs);
  }

  /** What one more function means to the shortcut. */
  lemma {:induction false} ShortcutStep(tools: Tools, functions: seq<Node>, n: nat, index: Index)
    requires n < |functions|
    ensures SomeEligible(tools, functions[..n + 1])
       <==> SomeEligible(tools, functions[..n]) || ShortcutEligible(tools, functions[n])
    ensures AllRemembered(tools, functions[..n + 1], index) <==>
              && AllRemembered(tools, functions[..n], index)
              && (ShortcutEligible(tools, functions[n]) ==> Remembered(functions[n], index))
    ensures ShortcutTotal(tools, functions[..n + 1], index)
         == ShortcutTotal(tools, functions[..n], index).Plus(ShortcutContribution(tools, functions[n], index))
    ensures !AllRemembered(tools, functions[..n + 1], index) ==> !AllRemembered(tools, functions, index)
  {
    var before, after := functions[..n], functions[..n + 1];
    assert after[..n] == before;
    assert after == before + [functions[n]];
    if SomeEligible(tools, before) {
      var i :| 0 <= i < n && ShortcutEligible(tools, before[i]);
      assert ShortcutEligible(tools, after[i]);
    }
    if ShortcutEligible(tools, functions[n]) {
      assert ShortcutEligible(tools, after[n]);
    }
    if AllRemembered(tools, after, index) {
      forall i | 0 <= i < n && ShortcutEligible(tools, before[i]) ensures Remembered(before[i], index) {
        assert ShortcutEligible(tools, after[i]);
      }
    }
    if AllRemembered(tools, functions, index) {
      forall i | 0 <= i <= n && ShortcutEligible(tools, after[i]) ensures Remembered(after[i], index) {
        assert ShortcutEligible(tools, functions[i]);
      }
    }
  }

  /** One pass over the functions that gives up at the first one the index does not know with this hash. */
  method CountRemembered(tools: Tools, functions: seq<Node>, index: Index) returns (sums: Option<Tally>)
    ensures sums.Some? <==> ShortcutFires(tools, functions, index)
    ensures sums.Some? ==> sums.value == ShortcutTotal(tools, functions, index)
  {
    var totalFlows: nat, vulnerableFlows: nat, matched: nat, eligible: nat := 0, 0, 0, 0;
    for i := 0 to |functions|
      invariant matched == eligible
      invariant eligible > 0 <==> SomeEligible(tools, functions[..i])
      invariant AllRemembered(tools, functions[..i], index)
      invariant ShortcutTotal(tools, functions[..i], index)
             == Tally(matched, 0, 0, 0, 0, totalFlows, vulnerableFlows, matched, 0, matched)
    {
      ShortcutStep(tools, functions, i, index);
      var func := functions[i];
      if func.filePath.None? {
        continue;
      }
      if func.codeHash.None? {
        continue;
      }
      if tools.language(func.filePath.value).None? {
        continue;
      }
      eligible := eligible + 1;
      var key := StableFunctionKey(func.filePath.value, func.name, func.codeHash.value);
      if key !in index {
        return None;
      }
      if func.codeHash.value != index[key].codeHash {
        return None;
      }
      matched := matched + 1;
      totalFlows := totalFlows + index[key].flowCount;
      vulnerableFlows := vulnerableFlows + index[key].vulnerableCount;
    }
    assert functions[..|functions|] == functions;
    if eligible == 0 || matched != eligible {
      return None;
    }
    sums := Some(Tally(matched, 0, 0, 0, 0, totalFlows, vulnerableFlows, matched, 0, matched));
  }

  method TryFullIncrementalShortcut(tools: Tools, functions: seq<Node>, index: Index)
    returns (result: Option<CfgAnalysisBatchResult>)
    ensures result.Some? <==> ShortcutFires(tools, functions, index)
    ensures result.Some? ==>
              && fresh(result.value)
              && result.value.Counters() == ShortcutTotal(tools, functions, index)
              && result.value.skips == [] && result.value.archiveUnchanged
  {
    var sums := CountRemembered(tools, functions, index);
    if sums.None? {
      return None;
    }
    ShortcutCounts(tools, functions, index);
    var shortcut := new CfgAnalysisBatchResult.Unchanged(sums.value);
    result := Some(shortcut);
  }

  /** Paths and names contain no key separator. */
  ghost predicate CleanFunctions(functions: seq<Node>) {
    forall i | 0 <= i < |functions| && functions[i].filePath.Some? ::
      Clean(functions[i].filePath.value) && Clean(functions[i].name)
  }

  /** A new entry carries the key of its own function. */
  lemma EntryKey(tools: Tools, sources: Sources, index: Index, func: Node)
    requires var o := OutcomeOf(tools, sources, index, func); o.Done? && o.work.indexEntry.Some?
    ensures func.filePath.Some? && func.filePath.value in sources
    ensures var e := OutcomeOf(tools, sources, index, func).work.indexEntry.value;
            var hash := ResolveCodeHash(tools, func, sources[func.filePath.value]);
            && e.stableKey == StableFunctionKey(func.filePath.value, func.name, hash)
            && e.codeHash == hash && e.functionId == func.id
            && tools.analyze(func.filePath.value, func.name, hash) == Some(Counts(e.flowCount, e.vulnerableCount))
  {
  }

  /** Functions of different files never write the same key. */
  lemma KeysOfFilesDiffer(tools: Tools, sources: Sources, index: Index, functions: seq<Node>, i: nat, j: nat)
    requires CleanFunctions(functions) && i < |functions| && j < |functions|
    requires functions[i].filePath != functions[j].filePath
    requires var o := OutcomeOf(tools, sources, index, functions[i]); o.Done? && o.work.indexEntry.Some?
    ensures !WritesKey(OutcomeOf(tools, sources, index, functions[j]),
                       OutcomeOf(tools, sources, index, functions[i]).work.indexEntry.value.stableKey)
  {
    var a, b := functions[i], functions[j];
    var o := OutcomeOf(tools, sources, index, b);
    if WritesKey(o, OutcomeOf(tools, sources, index, a).work.indexEntry.value.stableKey) {
      EntryKey(tools, sources, index, a);
      EntryKey(tools, sources, index, b);
      StableKeyInjective(a.filePath.value, a.name, ResolveCodeHash(tools, a, sources[a.filePath.value]),
                         b.filePath.value, b.name, ResolveCodeHash(tools, b, sources[b.filePath.value]));
    }
  }

  /** Function `i` belongs to one of the first `g` groups or to the first `k` functions of the next one. */
  ghost predicate Reached(tools: Tools, functions: seq<Node>, groups: seq<FileWorkGroup>, g: nat, k: nat, i: nat)
    requires g <= |groups| && i < |functions|
    requires if g < |groups| then k <= |groups[g].funcIndices| else k == 0
  {
    && CfgEligible(tools, functions[i])
    && (Listed(groups[..g], functions[i].filePath.value) || (g < |groups| && i in groups[g].funcIndices[..k]))
  }

  lemma ListedNext(groups: seq<FileWorkGroup>, g: nat, path: string)
    requires g < |groups|
    ensures Listed(groups[..g + 1], path) <==> Listed(groups[..g], path) || groups[g].filePath == path
  {
    var before, after := groups[..g], groups[..g + 1];
    assert after == before + [groups[g]];
    if Listed(before, path) {
      var h :| 0 <= h < g && before[h].filePath == path;
      assert after[h].filePath == path;
    }
    if groups[g].filePath == path {
      assert after[g].filePath == path;
    }
  }

  lemma ReachedStep(tools: Tools, functions: seq<Node>, groups: seq<FileWorkGroup>, g: nat, k: nat, i: nat)
    requires Grouping(tools, functions, groups) && g < |groups| && k < |groups[g].funcIndices| && i < |functions|
    ensures var idx := groups[g].funcIndices[k];
            && idx < |functions| && functions[idx].filePath == Some(groups[g].filePath)
            && (Reached(tools, functions, groups, g, k + 1, i)
            <==> Reached(tools, functions, groups, g, k, i) || i == idx)
            && !Reached(tools, functions, groups, g, k, idx)
            && (Reached(tools, functions, groups, g, k, i) && functions[i].filePath == functions[idx].filePath ==>
                  i < idx)
  {
    var indices := groups[g].funcIndices;
    var idx := indices[k];
    assert idx in indices;
    assert indices[..k + 1] == indices[..k] + [idx];
    forall h | 0 <= h < g ensures groups[h].filePath != groups[g].filePath {}
    assert !Listed(groups[..g], groups[g].filePath);
    if i in indices[..k] {
      var j :| 0 <= j < k && indices[j] == i;
    }
  }

  lemma ReachedNextGroup(tools: Tools, functions: seq<Node>, groups: seq<FileWorkGroup>, g: nat, i: nat)
    requires Grouping(tools, functions, groups) && g < |groups| && i < |functions|
    ensures Reached(tools, functions, groups, g + 1, 0, i)
       <==> Reached(tools, functions, groups, g, |groups[g].funcIndices|, i)
  {
    var indices := groups[g].funcIndices;
    assert indices[..|indices|] == indices;
    if CfgEligible(tools, functions[i]) {
      ListedNext(groups, g, functions[i].filePath.value);
    }
  }

  /** Flag the functions that landed in some group: exactly those in a file with a CFG language. */
  method MarkGrouped(tools: Tools, functions: seq<Node>, groups: seq<FileWorkGroup>) returns (inGroup: array<bool>)
    requires Grouping(tools, functions, groups)
    ensures fresh(inGroup) && inGroup.Length == |functions|
    ensures forall i | 0 <= i < |functions| :: inGroup[i] <==> CfgEligible(tools, functions[i])
  {
    inGroup := new bool[|functions|](_ => false);
    for g := 0 to |groups|
      invariant forall i | 0 <= i < |functions| :: inGroup[i] <==> Reached(tools, functions, groups, g, 0, i)
    {
      for k := 0 to |groups[g].funcIndices|
        invariant forall i | 0 <= i < |functions| :: inGroup[i] <==> Reached(tools, functions, groups, g, k, i)
      {
        ReachedStep(tools, functions, groups, g, k, 0);
        forall i | 0 <= i < |functions| {
          ReachedStep(tools, functions, groups, g, k, i);
        }
        inGroup[groups[g].funcIndices[k]] := true;
      }
      forall i | 0 <= i < |functions| {
        ReachedNextGroup(tools, functions, groups, g, i);
      }
    }
    assert groups[..|groups|] == groups;
  }

  /** Counters, entries and reported skips are those of the functions whose position is in `done`. */
  ghost predicate Summed(tools: Tools, sources: Sources, index: Index, functions: seq<Node>, done: set<nat>,
                         counters: Tally, entries: seq<IndexEntry>, skips: multiset<CfgSkipEvent>, verbose: bool) {
    var outcomes := Outcomes(tools, sources, index, functions);
    && counters == TotalOver(outcomes, done)
    && (CleanFunctions(functions) ==> Inserted(index, entries) == IndexOver(index, outcomes, done))
    && skips == if verbose then EventsOver(functions, outcomes, done) else multiset{}
  }

  function Reported(func: Node, reason: CfgSkipReason, verbose: bool): multiset<CfgSkipEvent> {
    if verbose then multiset{SkipEvent(func, reason)} else multiset{}
  }

  /** The positions before `n` of functions that belong to no group. */
  function Ungrouped(tools: Tools, functions: seq<Node>, n: nat): set<nat>
    requires n <= |functions|
  {
    set i: nat | i < n && !CfgEligible(tools, functions[i])
  }

  lemma SummedUngrouped(tools: Tools, sources: Sources, index: Index, functions: seq<Node>, n: nat, counters: Tally,
                        entries: seq<IndexEntry>, skips: multiset<CfgSkipEvent>, verbose: bool)
    requires n < |functions|
    requires Summed(tools, sources, index, functions, Ungrouped(tools, functions, n), counters, entries, skips, verbose)
    ensures if CfgEligible(tools, functions[n])
            then Summed(tools, sources, index, functions, Ungrouped(tools, functions, n + 1),
                        counters, entries, skips, verbose)
            else Summed(tools, sources, index, functions, Ungrouped(tools, functions, n + 1),
                        counters.Plus(SkipTally(UnsupportedLanguage)), entries,
                        skips + Reported(functions[n], UnsupportedLanguage, verbose), verbose)
  {
    var outcomes := Outcomes(tools, sources, index, functions);
    var done := Ungrouped(tools, functions, n);
    if CfgEligible(tools, functions[n]) {
      assert Ungrouped(tools, functions, n + 1) == done;
    } else {
      assert Ungrouped(tools, functions, n + 1) == done + {n};
      EventsOverAdd(functions, outcomes, done, n);
      TotalOverAdd(outcomes, done, n);
      IndexOverBeyond(index, outcomes, done, n);
    }
  }

  /** Taking in the next function of a group keeps everything summed up. */
  lemma SummedStep(tools: Tools, sources: Sources, index: Index, functions: seq<Node>, groups: seq<FileWorkGroup>,
                   g: nat, k: nat, done: set<nat>, counters: Tally, entries: seq<IndexEntry>,
                   skips: multiset<CfgSkipEvent>, verbose: bool)
    requires Grouping(tools, functions, groups) && g < |groups| && k < |groups[g].funcIndices|
    requires Covers(tools, functions, groups, g, k, done)
    requires Summed(tools, sources, index, functions, done, counters, entries, skips, verbose)
    ensures var idx := groups[g].funcIndices[k];
            && idx < |functions|
            && Covers(tools, functions, groups, g, k + 1, done + {idx})
            && match OutcomeOf(tools, sources, index, functions[idx])
               case Skipped(reason) =>
                 Summed(tools, sources, index, functions, done + {idx},
                        counters.Plus(SkipTally(reason)), entries,
                        skips + Reported(functions[idx], reason, verbose), verbose)
               case Done(w) =>
                 Summed(tools, sources, index, functions, done + {idx}, counters.Plus(WorkTally(w)),
                        entries + if w.indexEntry.Some? then [w.indexEntry.value] else [], skips, verbose)
  {
    var idx := groups[g].funcIndices[k];
    forall i | 0 <= i < |functions| {
      ReachedStep(tools, functions, groups, g, k, i);
    }
    assert idx !in done;
    TotalOverAdd(Outcomes(tools, sources, index, functions), done, idx);
    EventsOverAdd(functions, Outcomes(tools, sources, index, functions), done, idx);
    if CleanFunctions(functions) {
      StepOverIndex(tools, sources, index, functions, groups, g, k, done, entries);
      assert entries + [] == entries;
    }
  }

  /** Exactly the ungrouped functions, the first `g` groups and `k` functions of the next one have been taken in. */
  ghost predicate Covers(tools: Tools, functions: seq<Node>, groups: seq<FileWorkGroup>, g: nat, k: nat, done: set<nat>)
    requires g <= |groups|
    requires if g < |groups| then k <= |groups[g].funcIndices| else k == 0
  {
    forall i | 0 <= i < |functions| ::
      i in done <==> !CfgEligible(tools, functions[i]) || Reached(tools, functions, groups, g, k, i)
  }

  method SkipUngrouped(tools: Tools, ghost sources: Sources, ghost index: Index, functions: seq<Node>,
                       inGroup: seq<bool>, result: CfgAnalysisBatchResult, verbose: bool)
    requires |inGroup| == |functions|
    requires forall i | 0 <= i < |functions| :: inGroup[i] <==> CfgEligible(tools, functions[i])
    requires result.Counters() == ZERO && result.indexEntries == [] && result.skips == []
    modifies result
    ensures Summed(tools, sources, index, functions, Ungrouped(tools, functions, |functions|),
                   result.Counters(), result.indexEntries, multiset(result.skips), verbose)
  {
    assert Ungrouped(tools, functions, 0) == {};
    IndexOverNone(index, Outcomes(tools, sources, index, functions));
    EventsOverNone(functions, Outcomes(tools, sources, index, functions));
    for idx := 0 to |functions|
      invariant Summed(tools, sources, index, functions, Ungrouped(tools, functions, idx),
                       result.Counters(), result.indexEntries, multiset(result.skips), verbose)
    {
      SummedUngrouped(tools, sources, index, functions, idx, result.Counters(), result.indexEntries,
        multiset(result.skips), verbose);
      if inGroup[idx] {
        continue;
      }
      var path := if functions[idx].filePath.Some? then functions[idx].filePath.value else "<unknown>";
      result.RecordSkip(UnsupportedLanguage, path, functions[idx].name, verbose);
    }
  }

  method AddGroup(tools: Tools, ghost sources: Sources, ghost index: Index, functions: seq<Node>,
                  groups: seq<FileWorkGroup>, g: nat, outcomes: seq<Outcome>, result: CfgAnalysisBatchResult,
                  verbose: bool, ghost before: set<nat>)
    returns (ghost after: set<nat>)
    requires Grouping(tools, functions, groups) && g < |groups| && |outcomes| == |groups[g].funcIndices|
    requires forall k | 0 <= k < |outcomes| ::
               outcomes[k] == OutcomeOf(tools, sources, index, functions[groups[g].funcIndices[k]])
    requires Covers(tools, functions, groups, g, 0, before)
    requires Summed(tools, sources, index, functions, before, result.Counters(), result.indexEntries,
               multiset(result.skips), verbose)
    modifies result
    ensures Covers(tools, functions, groups, g + 1, 0, after)
    ensures Summed(tools, sources, index, functions, after, result.Counters(), result.indexEntries,
              multiset(result.skips), verbose)
  {
    var group := groups[g];
    after := before;
    for k := 0 to |group.funcIndices|
      invariant Covers(tools, functions, groups, g, k, after)
      invariant Summed(tools, sources, index, functions, after, result.Counters(), result.indexEntries,
                  multiset(result.skips), verbose)
    {
      var idx := group.funcIndices[k];
      SummedStep(tools, sources, index, functions, groups, g, k, after,
                 result.Counters(), result.indexEntries, multiset(result.skips), verbose);
      after := after + {idx};
      match outcomes[k] {
        case Skipped(reason) =>
          result.RecordSkip(reason, group.filePath, functions[idx].name, verbose);
        case Done(w) =>
          result.RecordWork(w);
      }
    }
    forall i | 0 <= i < |functions| {
      ReachedNextGroup(tools, functions, groups, g, i);
    }
  }

  /** Add the outcomes up: first the functions that belong to no group, then group by group, as they come. */
  method AddUp(tools: Tools, ghost sources: Sources, ghost index: Index, functions: seq<Node>,
               groups: seq<FileWorkGroup>, nested: seq<seq<Outcome>>, verbose: bool)
    returns (result: CfgAnalysisBatchResult)
    requires Grouping(tools, functions, groups) && |nested| == |groups|
    requires forall g | 0 <= g < |groups| :: GroupOutcomes(tools, sources, index, functions, groups[g], nested[g])
    ensures fresh(result)
    ensures result.Counters() == Total(Outcomes(tools, sources, index, functions))
    ensures multiset(result.skips) ==
              if verbose then AllEvents(functions, Outcomes(tools, sources, index, functions)) else multiset{}
    ensures CleanFunctions(functions) ==>
              Inserted(index, result.indexEntries)
                == Inserted(index, NewEntries(Outcomes(tools, sources, index, functions)))
  {
    var inGroup := MarkGrouped(tools, functions, groups);
    result := new CfgAnalysisBatchResult();
    SkipUngrouped(tools, sources, index, functions, inGroup[..], result, verbose);
    ghost var done := AddGroups(tools, sources, index, functions, groups, nested, result, verbose);
    SummedAll(tools, sources, index, functions, groups, done, result.Counters(), result.indexEntries,
      multiset(result.skips), verbose);
  }

  method AddGroups(tools: Tools, ghost sources: Sources, ghost index: Index, functions: seq<Node>,
                   groups: seq<FileWorkGroup>, nested: seq<seq<Outcome>>, result: CfgAnalysisBatchResult, verbose: bool)
    returns (ghost done: set<nat>)
    requires Grouping(tools, functions, groups) && |nested| == |groups|
    requires forall g | 0 <= g < |groups| :: GroupOutcomes(tools, sources, index, functions, groups[g], nested[g])
    requires Summed(tools, sources, index, functions, Ungrouped(tools, functions, |functions|),
                    result.Counters(), result.indexEntries, multiset(result.skips), verbose)
    modifies result
    ensures Covers(tools, functions, groups, |groups|, 0, done)
    ensures Summed(tools, sources, index, functions, done, result.Counters(), result.indexEntries,
              multiset(result.skips), verbose)
  {
    done := Ungrouped(tools, functions, |functions|);
    UngroupedCovers(tools, functions, groups);
    for g := 0 to |groups|
      invariant Covers(tools, functions, groups, g, 0, done)
      invariant Summed(tools, sources, index, functions, done, result.Counters(), result.indexEntries,
                  multiset(result.skips), verbose)
    {
      assert GroupOutcomes(tools, sources, index, functions, groups[g], nested[g]);
      done := AddGroup(tools, sources, index, functions, groups, g, nested[g], result, verbose, done);
    }
  }

  lemma UngroupedCovers(tools: Tools, functions: seq<Node>, groups: seq<FileWorkGroup>)
    ensures Covers(tools, functions, groups, 0, 0, Ungrouped(tools, functions, |functions|))
  {
    assert groups[..0] == [];
  }

  /** With every group taken in, the sums are those of the whole fold. */
  lemma {:induction false} SummedAll(tools: Tools, sources: Sources, index: Index, functions: seq<Node>,
                                     groups: seq<FileWorkGroup>, done: set<nat>, counters: Tally,
                                     entries: seq<IndexEntry>, skips: multiset<CfgSkipEvent>, verbose: bool)
    requires Grouping(tools, functions, groups) && Covers(tools, functions, groups, |groups|, 0, done)
    requires Summed(tools, sources, index, functions, done, counters, entries, skips, verbose)
    ensures counters == Total(Outcomes(tools, sources, index, functions))
    ensures CleanFunctions(functions) ==>
              Inserted(index, entries) == Inserted(index, NewEntries(Outcomes(tools, sources, index, functions)))
    ensures skips == if verbose then AllEvents(functions, Outcomes(tools, sources, index, functions)) else multiset{}
  {
    assert groups[..|groups|] == groups;
    TotalOverAll(Outcomes(tools, sources, index, functions), done);
    IndexOverAll(index, Outcomes(tools, sources, index, functions), done);
    EventsOverAll(functions, Outcomes(tools, sources, index, functions), done);
  }

  /** Taking in the next function keeps the collected entries equivalent to those of the positions done. */
  lemma {:induction false} StepOverIndex(tools: Tools, sources: Sources, index: Index, functions: seq<Node>,
                                         groups: seq<FileWorkGroup>, g: nat, k: nat, done: set<nat>,
                                         entries: seq<IndexEntry>)
    requires Grouping(tools, functions, groups) && g < |groups| && k < |groups[g].funcIndices|
    requires Covers(tools, functions, groups, g, k, done)
    requires CleanFunctions(functions)
    requires Inserted(index, entries) == IndexOver(index, Outcomes(tools, sources, index, functions), done)
    ensures var idx := groups[g].funcIndices[k];
            && idx < |functions|
            && var o := OutcomeOf(tools, sources, index, functions[idx]);
            var added := if o.Done? && o.work.indexEntry.Some? then [o.work.indexEntry.value] else [];
            Inserted(index, entries + added)
              == IndexOver(index, Outcomes(tools, sources, index, functions), done + {idx})
  {
    var idx := groups[g].funcIndices[k];
    ReachedStep(tools, functions, groups, g, k, idx);
    var outcomes := Outcomes(tools, sources, index, functions);
    var o := outcomes[idx];
    if o.Done? && o.work.indexEntry.Some? {
      forall j | idx < j < |outcomes| && j in done ensures !WritesKey(outcomes[j], o.work.indexEntry.value.stableKey) {
        ReachedStep(tools, functions, groups, g, k, j);
        if CfgEligible(tools, functions[j]) {
          KeysOfFilesDiffer(tools, sources, index, functions, idx, j);
        }
      }
      IndexOverAdd(index, outcomes, done, idx);
      assert (entries + [o.work.indexEntry.value])[..|entries|] == entries;
    } else {
      IndexOverBeyond(index, outcomes, done, idx);
      assert entries + [] == entries;
    }
  }

  /** Of `n` functions each counts once: as a success or an error, and within those under one heading. */
  ghost predicate Conserved(t: Tally, n: nat) {
    && t.success + t.errors == n
    && t.unsupported + t.missing + t.failed == t.errors
    && t.cacheHits + t.recomputed == t.success
    && t.skippedUnchanged == t.cacheHits
  }

  lemma OneConserved(tools: Tools, sources: Sources, index: Index, func: Node)
    ensures Conserved(Contribution(OutcomeOf(tools, sources, index, func)), 1)
  {
  }

  lemma ConservedPlus(t: Tally, n: nat, u: Tally, m: nat)
    requires Conserved(t, n) && Conserved(u, m)
    ensures Conserved(t.Plus(u), n + m)
  {
  }

  /** Every full pass conserves its functions. */
  lemma {:induction false} TotalConserved(tools: Tools, sources: Sources, index: Index, functions: seq<Node>)
    ensures Conserved(Total(Outcomes(tools, sources, index, functions)), |functions|)
  {
    if functions != [] {
      var rest, last := functions[..|functions| - 1], functions[|functions| - 1];
      TotalConserved(tools, sources, index, rest);
      TotalSnoc(tools, sources, index, functions);
      OneConserved(tools, sources, index, last);
      ConservedPlus(Total(Outcomes(tools, sources, index, rest)), |rest|,
        Contribution(OutcomeOf(tools, sources, index, last)), 1);
    }
  }

  lemma TotalSnoc(tools: Tools, sources: Sources, index: Index, functions: seq<Node>)
    requires functions != []
    ensures Total(Outcomes(tools, sources, index, functions))
         == Total(Outcomes(tools, sources, index, functions[..|functions| - 1]))
              .Plus(Contribution(OutcomeOf(tools, sources, index, functions[|functions| - 1])))
  {
    OutcomesOfRest(tools, sources, index, functions);
  }

  lemma OutcomesOfRest(tools: Tools, sources: Sources, index: Index, functions: seq<Node>)
    requires functions != []
    ensures Outcomes(tools, sources, index, functions)[..|functions| - 1]
         == Outcomes(tools, sources, index, functions[..|functions| - 1])
  {
    var n := |functions| - 1;
    var all, rest := Outcomes(tools, sources, index, functions), Outcomes(tools, sources, index, functions[..n]);
    assert forall i | 0 <= i < n :: all[i] == rest[i];
  }

  lemma {:induction false} ShortcutCounts(tools: Tools, functions: seq<Node>, index: Index)
    ensures var t := ShortcutTotal(tools, functions, index);
            t == t.WithoutSkips() && t.recomputed == 0 && t.success == t.cacheHits == t.skippedUnchanged
  {
    if functions != [] {
      ShortcutCounts(tools, functions[..|functions| - 1], index);
    }
  }

  /** Id sync and purge, the last step of both kinds of pass. */
  method SettleIndex(tools: Tools, sources: Option<Sources>, functions: seq<Node>, storage: Storage)
    modifies storage
    ensures storage.index == Settled(tools, functions, sources, old(storage.index))
  {
    var activeKeys := ActiveStableKeys(tools, functions, sources);
    SyncStorageFunctionIds(storage, functions);
    storage.PurgeStaleByStableKeys(activeKeys);
  }

  /** The pass over all files, against a snapshot of the index. */
  method RunFullPass(tools: Tools, sources: Sources, functions: seq<Node>, cache: Index, verbose: bool)
    returns (result: CfgAnalysisBatchResult)
    ensures fresh(result)
    ensures result.Counters() == Total(Outcomes(tools, sources, cache, functions))
    ensures CleanFunctions(functions) ==>
              Inserted(cache, result.indexEntries)
                == Inserted(cache, NewEntries(Outcomes(tools, sources, cache, functions)))
    ensures multiset(result.skips) ==
              if verbose then AllEvents(functions, Outcomes(tools, sources, cache, functions)) else multiset{}
  {
    var groups := GroupWorkItemsByFile(tools, functions);
    var nested: seq<seq<Outcome>> := [];
    for g := 0 to |groups|
      invariant |nested| == g
      invariant forall h | 0 <= h < g :: GroupOutcomes(tools, sources, cache, functions, groups[h], nested[h])
    {
      var outcomes := ProcessFileGroup(tools, sources, cache, functions, groups[g]);
      nested := nested + [outcomes];
    }
    result := AddUp(tools, sources, cache, functions, groups, nested, verbose);
  }

  /** The batch. Its counters and its index are those of the per-function fold, whatever the order of the groups. */
  method RunCfgAnalysisBatch(tools: Tools, sources: Sources, functions: seq<Node>, storage: Storage, verbose: bool)
    returns (result: CfgAnalysisBatchResult)
    modifies storage
    ensures fresh(result)
    ensures result.Counters() == Batch(tools, sources, functions, old(storage.index)).0
    ensures CleanFunctions(functions) ==> storage.index == Batch(tools, sources, functions, old(storage.index)).1
    ensures result.archiveUnchanged <==> result.recomputed == 0
    ensures multiset(result.skips) == ReportedSkips(tools, sources, functions, old(storage.index), verbose)
    ensures !ShortcutFires(tools, functions, old(storage.index)) ==>
              && result.skipUnsupportedLanguage == Number(functions, NoLanguage(tools))
              && result.skipMissingSource == Number(functions, NoSource(tools, sources))
              && result.cacheHits == Number(functions, Reused(tools, sources, old(storage.index)))
    ensures ShortcutFires(tools, functions, old(storage.index)) ==>
              && result.successCount == Number(functions, Known(tools, old(storage.index)))
              && result.totalFlows == Sum(functions, EntryFlows(tools, old(storage.index)))
              && result.vulnerableFlows == Sum(functions, EntryVulnerable(tools, old(storage.index)))
  {
    var cache := storage.index;
    var shortcut := TryFullIncrementalShortcut(tools, functions, cache);
    if shortcut.Some? {
      SettleIndex(tools, None, functions, storage);
      ShortcutCounts(tools, functions, cache);
      ShortcutFromEntries(tools, functions, cache);
      return shortcut.value;
    }
    result := RunFullPass(tools, sources, functions, cache, verbose);
    storage.RefreshAnalysisIndexFromEntries(result.indexEntries);
    SettleIndex(tools, Some(sources), functions, storage);
    TotalConserved(tools, sources, cache, functions);
    PassSkips(tools, sources, cache, functions);
    result.archiveUnchanged := result.skippedUnchanged == result.successCount && result.recomputed == 0;
  }
}
