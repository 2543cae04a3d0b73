/**
 What the incremental index promises across runs of the batch in src/cli/discover_cfg.rs: reusing it changes no
 finding, it stays truthful, the shortcut agrees with the full pass, and a successful run need not be repeated.
 */
module IncrementalRuns {
  import opened Wrappers
  import opened AnalysisStorage
  import opened DiscoverCfg

  // ---------------------------------------------------------------- a truthful index

  /** Every entry tells what a fresh analysis of its function would find. */
  ghost predicate Sound(tools: Tools, index: Index) {
    forall file, name, hash ::
      Clean(file) && Clean(name) && StableFunctionKey(file, name, hash) in index ==>
        Truthful(tools, index, file, name, hash)
  }

  ghost predicate Truthful(tools: Tools, index: Index, file: string, name: string, hash: string)
    requires StableFunctionKey(file, name, hash) in index
  {
    var e := index[StableFunctionKey(file, name, hash)];
    e.codeHash == hash ==> tools.analyze(file, name, hash) == Some(Counts(e.flowCount, e.vulnerableCount))
  }

  ghost predicate CleanNode(func: Node) {
    func.filePath.Some? ==> Clean(func.filePath.value) && Clean(func.name)
  }

  /** The counters apart from how the findings were obtained. */
  function Findings(t: Tally): Tally {
    t.(cacheHits := 0, recomputed := 0, skippedUnchanged := 0)
  }

  lemma SameFinding(tools: Tools, sources: Sources, index: Index, func: Node)
    requires Sound(tools, index) && CleanNode(func)
    ensures Findings(Contribution(OutcomeOf(tools, sources, index, func)))
         == Findings(Contribution(OutcomeOf(tools, sources, map[], func)))
  {
    if CfgEligible(tools, func) && func.filePath.value in sources {
      var file, hash := func.filePath.value, ResolveCodeHash(tools, func, sources[func.filePath.value]);
      if StableFunctionKey(file, func.name, hash) in index {
        assert Truthful(tools, index, file, func.name, hash);
      }
    }
  }

  lemma FindingsPlus(t: Tally, u: Tally, t': Tally, u': Tally)
    requires Findings(t) == Findings(t') && Findings(u) == Findings(u')
    ensures Findings(t.Plus(u)) == Findings(t'.Plus(u'))
  {
  }

  /** Reusing a truthful index changes no finding: same successes, same skips per reason, same flows. */
  lemma {:induction false} WarmPassEqualsCold(tools: Tools, sources: Sources, index: Index, functions: seq<Node>)
    requires Sound(tools, index) && CleanFunctions(functions)
    ensures Findings(Total(Outcomes(tools, sources, index, functions)))
         == Findings(Total(Outcomes(tools, sources, map[], functions)))
  {
    if functions != [] {
      var n := |functions| - 1;
      WarmPassEqualsCold(tools, sources, index, functions[..n]);
      TotalSnoc(tools, sources, index, functions);
      TotalSnoc(tools, sources, map[], functions);
      SameFinding(tools, sources, index, functions[n]);
      FindingsPlus(Total(Outcomes(tools, sources, index, functions[..n])),
                   Contribution(OutcomeOf(tools, sources, index, functions[n])),
                   Total(Outcomes(tools, sources, map[], functions[..n])),
                   Contribution(OutcomeOf(tools, sources, map[], functions[n])));
    }
  }

  /** With a truthful index the full pass reports what the inputs alone say: no index, no cache and no order of work. */
  lemma {:induction false} PassFromInputs(tools: Tools, sources: Sources, index: Index, functions: seq<Node>)
    requires Sound(tools, index) && CleanFunctions(functions)
    ensures var t := Total(Outcomes(tools, sources, index, functions));
            && t.success == Number(functions, Succeeds(tools, sources))
            && t.failed == Number(functions, Fails(tools, sources))
            && t.flows == Sum(functions, FlowsOf(tools, sources))
            && t.vulnerable == Sum(functions, VulnerableOf(tools, sources))
  {
    if functions != [] {
      var rest, f := functions[..|functions| - 1], functions[|functions| - 1];
      PassFromInputs(tools, sources, index, rest);
      TotalSnoc(tools, sources, index, functions);
      OneFromInputs(tools, sources, index, f);
    }
  }

  lemma OneFromInputs(tools: Tools, sources: Sources, index: Index, f: Node)
    requires Sound(tools, index) && CleanNode(f)
    ensures var c := Contribution(OutcomeOf(tools, sources, index, f));
            && c.success == One(Succeeds(tools, sources)(f)) && c.failed == One(Fails(tools, sources)(f))
            && c.flows == FlowsOf(tools, sources)(f) && c.vulnerable == VulnerableOf(tools, sources)(f)
  {
    if Readable(tools, sources, f) {
      var file, hash := f.filePath.value, ResolveCodeHash(tools, f, sources[f.filePath.value]);
      if StableFunctionKey(file, f.name, hash) in index {
        assert Truthful(tools, index, file, f.name, hash);
      }
    }
  }

  /** The whole report of a full pass with a truthful index, counter by counter, from the inputs alone. */
  lemma {:induction false} TrueReport(tools: Tools, sources: Sources, index: Index, functions: seq<Node>)
    requires Sound(tools, index) && CleanFunctions(functions) && !ShortcutFires(tools, functions, index)
    ensures var t := Batch(tools, sources, functions, index).0;
            var unsupported, missing :=
              Number(functions, NoLanguage(tools)), Number(functions, NoSource(tools, sources));
            var failed, success :=
              Number(functions, Fails(tools, sources)), Number(functions, Succeeds(tools, sources));
            var reused := Number(functions, Reused(tools, sources, index));
            && t.unsupported == unsupported && t.missing == missing && t.failed == failed
            && t.errors == unsupported + missing + failed && t.success == success
            && t.cacheHits == reused && t.skippedUnchanged == reused && t.recomputed == success - reused
            && t.flows == Sum(functions, FlowsOf(tools, sources))
            && t.vulnerable == Sum(functions, VulnerableOf(tools, sources))
  {
    PassSkips(tools, sources, index, functions);
    PassFromInputs(tools, sources, index, functions);
    TotalConserved(tools, sources, index, functions);
  }

  /** Some function was skipped for this reason, as the inputs alone tell. */
  ghost predicate SkippedFor(tools: Tools, sources: Sources, functions: seq<Node>, e: CfgSkipEvent) {
    exists f <- functions ::
      && e.symbol == f.name && e.filePath == (if f.filePath.Some? then f.filePath.value else "<unknown>")
      && match e.reason
         case UnsupportedLanguage => NoLanguage(tools)(f)
         case MissingSource => NoSource(tools, sources)(f)
         case AnalysisError => Fails(tools, sources)(f)
  }

  /** With a truthful index, a skip is reported exactly if some function was skipped for that reason. */
  lemma {:induction false} EventsFromInputs(tools: Tools, sources: Sources, index: Index, functions: seq<Node>,
                                            e: CfgSkipEvent)
    requires Sound(tools, index) && CleanFunctions(functions)
    ensures e in AllEvents(functions, Outcomes(tools, sources, index, functions))
       <==> SkippedFor(tools, sources, functions, e)
  {
    if functions != [] {
      var rest, f := functions[..|functions| - 1], functions[|functions| - 1];
      assert functions == rest + [f];
      EventsFromInputs(tools, sources, index, rest, e);
      assert Outcomes(tools, sources, index, functions)[..|rest|] == Outcomes(tools, sources, index, rest);
      EventFromInputs(tools, sources, index, f, e);
      SkippedForSnoc(tools, sources, rest, f, e);
    }
  }

  lemma EventFromInputs(tools: Tools, sources: Sources, index: Index, f: Node, e: CfgSkipEvent)
    requires Sound(tools, index) && CleanNode(f)
    ensures e in Events(f, OutcomeOf(tools, sources, index, f)) <==> SkippedFor(tools, sources, [f], e)
  {
    OneFromInputs(tools, sources, index, f);
    assert SkippedFor(tools, sources, [f], e) <==>
        && e.symbol == f.name && e.filePath == (if f.filePath.Some? then f.filePath.value else "<unknown>")
        && match e.reason
           case UnsupportedLanguage => NoLanguage(tools)(f)
           case MissingSource => NoSource(tools, sources)(f)
           case AnalysisError => Fails(tools, sources)(f)
    by {
      assert forall g :: g in [f] <==> g == f;
      assert f in [f];
    }
  }

  lemma SkippedForSnoc(tools: Tools, sources: Sources, rest: seq<Node>, f: Node, e: CfgSkipEvent)
    ensures SkippedFor(tools, sources, rest + [f], e)
       <==> SkippedFor(tools, sources, rest, e) || SkippedFor(tools, sources, [f], e)
  {
    assert forall g :: g in rest + [f] <==> g in rest || g in [f];
  }

  /** The index after a pass has written back its new entries. */
  function WrittenBack(tools: Tools, sources: Sources, index: Index, functions: seq<Node>): Index {
    Inserted(index, NewEntries(Outcomes(tools, sources, index, functions)))
  }

  /** Writing back the entry of one outcome, if it has one. */
  function Put(index: Index, o: Outcome): Index {
    if o.Done? && o.work.indexEntry.Some? then index[o.work.indexEntry.value.stableKey := o.work.indexEntry.value]
    else index
  }

  lemma WrittenBackNext(tools: Tools, sources: Sources, index: Index, functions: seq<Node>, n: nat)
    requires n < |functions|
    ensures WrittenBack(tools, sources, index, functions[..n + 1])
         == Put(WrittenBack(tools, sources, index, functions[..n]), OutcomeOf(tools, sources, index, functions[n]))
  {
    var outcomes := Outcomes(tools, sources, index, functions[..n + 1]);
    var before := Outcomes(tools, sources, index, functions[..n]);
    assert outcomes[..n] == before && outcomes[n] == OutcomeOf(tools, sources, index, functions[n]);
    EntriesNext(index, outcomes);
  }

  lemma EntriesNext(index: Index, outcomes: seq<Outcome>)
    requires outcomes != []
    ensures Inserted(index, NewEntries(outcomes))
         == Put(Inserted(index, NewEntries(outcomes[..|outcomes| - 1])), outcomes[|outcomes| - 1])
  {
    var last := outcomes[|outcomes| - 1];
    var entries, before := NewEntries(outcomes), NewEntries(outcomes[..|outcomes| - 1]);
    if last.Done? && last.work.indexEntry.Some? {
      assert entries[..|entries| - 1] == before;
    } else {
      assert entries == before;
    }
  }

  /** Writing back what the pass found keeps the index truthful. */
  lemma {:induction false} WrittenBackSound(tools: Tools, sources: Sources, index: Index, functions: seq<Node>, n: nat)
    requires Sound(tools, index) && CleanFunctions(functions) && n <= |functions|
    ensures Sound(tools, WrittenBack(tools, sources, index, functions[..n]))
  {
    if n > 0 {
      WrittenBackSound(tools, sources, index, functions, n - 1);
      WrittenBackNext(tools, sources, index, functions, n - 1);
      PutOutcomeSound(tools, sources, index, functions[n - 1], WrittenBack(tools, sources, index, functions[..n - 1]));
    }
  }

  lemma PutOutcomeSound(tools: Tools, sources: Sources, index: Index, func: Node, before: Index)
    requires Sound(tools, before) && CleanNode(func)
    ensures Sound(tools, Put(before, OutcomeOf(tools, sources, index, func)))
  {
    var o := OutcomeOf(tools, sources, index, func);
    if o.Done? && o.work.indexEntry.Some? {
      EntryKey(tools, sources, index, func);
      PutSound(tools, before, func.filePath.value, func.name, o.work.indexEntry.value);
    }
  }

  lemma PutSound(tools: Tools, index: Index, file: string, name: string, e: IndexEntry)
    requires Sound(tools, index) && Clean(file) && Clean(name)
    requires e.stableKey == StableFunctionKey(file, name, e.codeHash)
    requires tools.analyze(file, name, e.codeHash) == Some(Counts(e.flowCount, e.vulnerableCount))
    ensures Sound(tools, index[e.stableKey := e])
  {
    var after := index[e.stableKey := e];
    forall f, n, h | Clean(f) && Clean(n) && StableFunctionKey(f, n, h) in after
      ensures Truthful(tools, after, f, n, h)
    {
      if StableFunctionKey(f, n, h) == e.stableKey {
        StableKeyInjective(f, n, h, file, name, e.codeHash);
      } else {
        assert Truthful(tools, index, f, n, h);
      }
    }
  }

  lemma SettledSound(tools: Tools, sources: Option<Sources>, index: Index, functions: seq<Node>)
    requires Sound(tools, index)
    ensures Sound(tools, Settled(tools, functions, sources, index))
  {
    var synced := Synced(index, SyncEntries(functions));
    SyncKeepsFindings(index, SyncEntries(functions));
    var settled := Settled(tools, functions, sources, index);
    forall f, n, h | Clean(f) && Clean(n) && StableFunctionKey(f, n, h) in settled
      ensures Truthful(tools, settled, f, n, h)
    {
      assert StableFunctionKey(f, n, h) in synced;
      assert Truthful(tools, index, f, n, h);
    }
  }

  /** A run, full or short, leaves a truthful index truthful. */
  lemma BatchKeepsSound(tools: Tools, sources: Sources, index: Index, functions: seq<Node>)
    requires Sound(tools, index) && CleanFunctions(functions)
    ensures Sound(tools, Batch(tools, sources, functions, index).1)
  {
    if ShortcutFires(tools, functions, index) {
      SettledSound(tools, None, index, functions);
    } else {
      assert functions[..|functions|] == functions;
      WrittenBackSound(tools, sources, index, functions, |functions|);
      SettledSound(tools, Some(sources), WrittenBack(tools, sources, index, functions), functions);
    }
  }

  /** One run: the sources as they are on disk and the functions as they are in the graph. */
  datatype Run = Run(sources: Sources, functions: seq<Node>)

  /** The index after a history of runs that started without one. */
  function IndexAfter(tools: Tools, history: seq<Run>): Index {
    if history == [] then map[]
    else
      var last := history[|history| - 1];
      Batch(tools, last.sources, last.functions, IndexAfter(tools, history[..|history| - 1])).1
  }

  /** The index is truthful after every history, however sources and functions changed between the runs. */
  lemma {:induction false} EveryHistorySound(tools: Tools, history: seq<Run>)
    requires forall r <- history :: CleanFunctions(r.functions)
    ensures Sound(tools, IndexAfter(tools, history))
  {
    if history != [] {
      var last := history[|history| - 1];
      EveryHistorySound(tools, history[..|history| - 1]);
      BatchKeepsSound(tools, last.sources, IndexAfter(tools, history[..|history| - 1]), last.functions);
    }
  }

  // ---------------------------------------------------------------- the shortcut against the full pass

  /**
   A function about which the shortcut and the full pass differ: one with a hash whose source is gone, or one without a
   hash that an analysis would complete.
   */
  predicate Exposed(tools: Tools, sources: Sources, func: Node) {
    && CfgEligible(tools, func)
    && var path := func.filePath.value;
       if func.codeHash.Some? then path !in sources
       else path in sources && tools.analyze(path, func.name, tools.hashCode(sources[path])).Some?
  }

  ghost predicate SomeExposed(tools: Tools, sources: Sources, functions: seq<Node>) {
    exists i | 0 <= i < |functions| :: Exposed(tools, sources, functions[i])
  }

  lemma SomeExposedSnoc(tools: Tools, sources: Sources, rest: seq<Node>, f: Node)
    ensures SomeExposed(tools, sources, rest + [f])
       <==> SomeExposed(tools, sources, rest) || Exposed(tools, sources, f)
  {
    var all := rest + [f];
    if SomeExposed(tools, sources, rest) {
      var i :| 0 <= i < |rest| && Exposed(tools, sources, rest[i]);
      assert all[i] == rest[i];
    }
    if Exposed(tools, sources, f) {
      assert all[|rest|] == f;
    }
  }

  /** A remembered function with its source is a fast hit or a remap, whichever id the entry has. */
  lemma HitOrRemap(tools: Tools, sources: Sources, index: Index, func: Node)
    requires ShortcutEligible(tools, func) && Remembered(func, index) && func.filePath.value in sources
    ensures OutcomeOf(tools, sources, index, func).Done?
    ensures Contribution(OutcomeOf(tools, sources, index, func)) == ShortcutContribution(tools, func, index)
  {
  }

  /** How the two kinds of pass relate: `short` never claims less, and claims the same when nothing is exposed. */
  ghost predicate Against(pass: Tally, short: Tally, exposed: bool) {
    && (if exposed then pass.recomputed > 0 || pass.success < short.success else pass.WithoutSkips() == short)
    && (pass.recomputed == 0 ==> pass.success <= short.success)
  }

  lemma OneAgainst(tools: Tools, sources: Sources, index: Index, func: Node)
    requires ShortcutEligible(tools, func) ==> Remembered(func, index)
    ensures Against(Contribution(OutcomeOf(tools, sources, index, func)), ShortcutContribution(tools, func, index),
                    Exposed(tools, sources, func))
  {
    if ShortcutEligible(tools, func) && func.filePath.value in sources {
      HitOrRemap(tools, sources, index, func);
    }
  }

  lemma AgainstPlus(pass: Tally, short: Tally, exposed: bool, pass': Tally, short': Tally, exposed': bool)
    requires Against(pass, short, exposed) && Against(pass', short', exposed')
    ensures Against(pass.Plus(pass'), short.Plus(short'), exposed || exposed')
  {
  }

  lemma {:induction false} ShortcutAgainstPass(tools: Tools, sources: Sources, index: Index, functions: seq<Node>)
    requires AllRemembered(tools, functions, index)
    ensures Against(Total(Outcomes(tools, sources, index, functions)), ShortcutTotal(tools, functions, index),
                    SomeExposed(tools, sources, functions))
  {
    if functions != [] {
      var n := |functions| - 1;
      var rest, f := functions[..n], functions[n];
      assert functions == rest + [f];
      assert AllRemembered(tools, rest, index) by {
        assert forall i | 0 <= i < n :: rest[i] == functions[i];
      }
      ShortcutAgainstPass(tools, sources, index, rest);
      TotalSnoc(tools, sources, index, functions);
      SomeExposedSnoc(tools, sources, rest, f);
      OneAgainst(tools, sources, index, f);
      AgainstPlus(Total(Outcomes(tools, sources, index, rest)), ShortcutTotal(tools, rest, index),
                  SomeExposed(tools, sources, rest),
                  Contribution(OutcomeOf(tools, sources, index, f)), ShortcutContribution(tools, f, index),
                  Exposed(tools, sources, f));
    }
  }

  /** When the shortcut fires, it reports what the full pass would, skips aside, exactly when no function is exposed. */
  lemma ShortcutAgreesUpToSkips(tools: Tools, sources: Sources, index: Index, functions: seq<Node>)
    requires ShortcutFires(tools, functions, index)
    ensures Batch(tools, sources, functions, index).0 == FullPass(tools, sources, functions, index).0.WithoutSkips()
       <==> !SomeExposed(tools, sources, functions)
  {
    ShortcutAgainstPass(tools, sources, index, functions);
    ShortcutCounts(tools, functions, index);
  }

  /** A function that every kind of pass accounts for: it has a CFG language, a hash and a source. */
  predicate Plain(tools: Tools, sources: Sources, func: Node) {
    ShortcutEligible(tools, func) && func.filePath.value in sources
  }

  lemma {:induction false} ShortcutSuccess(tools: Tools, sources: Sources, index: Index, functions: seq<Node>)
    requires AllRemembered(tools, functions, index)
    ensures ShortcutTotal(tools, functions, index).success <= |functions|
    ensures ShortcutTotal(tools, functions, index).success == |functions| <==>
              forall i | 0 <= i < |functions| :: ShortcutEligible(tools, functions[i])
  {
    if functions != [] {
      var rest := functions[..|functions| - 1];
      assert forall i | 0 <= i < |rest| :: rest[i] == functions[i];
      ShortcutSuccess(tools, sources, index, rest);
    }
  }

  lemma DoneOrError(tools: Tools, sources: Sources, index: Index, func: Node)
    ensures Contribution(OutcomeOf(tools, sources, index, func)).errors == 0
       <==> OutcomeOf(tools, sources, index, func).Done?
  {
  }

  lemma {:induction false} NoErrorsMeansAllDone(tools: Tools, sources: Sources, index: Index, functions: seq<Node>)
    ensures Total(Outcomes(tools, sources, index, functions)).errors == 0 <==>
              forall i | 0 <= i < |functions| :: OutcomeOf(tools, sources, index, functions[i]).Done?
  {
    if functions != [] {
      var rest := functions[..|functions| - 1];
      assert forall i | 0 <= i < |rest| :: rest[i] == functions[i];
      NoErrorsMeansAllDone(tools, sources, index, rest);
      TotalSnoc(tools, sources, index, functions);
      DoneOrError(tools, sources, index, functions[|functions| - 1]);
    }
  }

  /**
   A run with a truthful index reports the findings of a run without one, exactly when it does not take the shortcut
   or every function has a CFG language, a hash and a source. The shortcut reports no skips and overlooks functions
   without a hash, so outside that condition the two do differ.
   */
  lemma WarmBatchEqualsCold(tools: Tools, sources: Sources, index: Index, functions: seq<Node>)
    requires Sound(tools, index) && CleanFunctions(functions)
    ensures Findings(Batch(tools, sources, functions, index).0) == Findings(Batch(tools, sources, functions, map[]).0)
       <==> || !ShortcutFires(tools, functions, index)
            || forall i | 0 <= i < |functions| :: Plain(tools, sources, functions[i])
  {
    WarmPassEqualsCold(tools, sources, index, functions);
    assert !ShortcutFires(tools, functions, map[]);
    if ShortcutFires(tools, functions, index) {
      ShortcutEqualsPass(tools, sources, index, functions);
    }
  }

  lemma {:induction false} ShortcutEqualsPass(tools: Tools, sources: Sources, index: Index, functions: seq<Node>)
    requires ShortcutFires(tools, functions, index)
    ensures Findings(ShortcutTotal(tools, functions, index))
              == Findings(Total(Outcomes(tools, sources, index, functions)))
       <==> forall i | 0 <= i < |functions| :: Plain(tools, sources, functions[i])
  {
    var pass, short := Total(Outcomes(tools, sources, index, functions)), ShortcutTotal(tools, functions, index);
    ShortcutCounts(tools, functions, index);
    ShortcutSuccess(tools, sources, index, functions);
    NoErrorsMeansAllDone(tools, sources, index, functions);
    TotalConserved(tools, sources, index, functions);
    if Findings(pass) == Findings(short) {
      forall i | 0 <= i < |functions| ensures Plain(tools, sources, functions[i]) {
        assert pass.errors == short.errors == 0;
        assert OutcomeOf(tools, sources, index, functions[i]).Done?;
      }
    }
    if forall i | 0 <= i < |functions| :: Plain(tools, sources, functions[i]) {
      forall i | 0 <= i < |functions| ensures OutcomeOf(tools, sources, index, functions[i]).Done? {
        HitOrRemap(tools, sources, index, functions[i]);
      }
      ShortcutAgainstPass(tools, sources, index, functions);
    }
  }

  // ---------------------------------------------------------------- where they do differ

  /** Tools that know one language and find nothing. */
  function QuietTools(): Tools {
    Tools((path: string) => if path == "A.java" then Some("java") else None,
          (source: string) => "h",
          (path: string, name: string, hash: string) => Some(Counts(0, 0)))
  }

  function OneSource(): Sources {
    map["A.java" := "class A {}"]
  }

  function HashedNode(): Node {
    Node(1, "f", Some("A.java"), Some("h"))
  }

  /** An index that remembers the hashed function. */
  function OneEntry(): Index {
    var key := StableFunctionKey("A.java", "f", "h");
    map[key := IndexEntry(key, 1, "h", 0, 0)]
  }

  lemma OneEntryFires(other: Node)
    requires !ShortcutEligible(QuietTools(), other)
    ensures Sound(QuietTools(), OneEntry()) && ShortcutFires(QuietTools(), [HashedNode(), other], OneEntry())
  {
    var functions := [HashedNode(), other];
    assert ShortcutEligible(QuietTools(), functions[0]);
    assert Remembered(functions[0], OneEntry());
  }

  /** A remembered function beside one without a CFG language: the warm run does not report the skip of the other. */
  lemma WarmCanDifferFromCold()
    ensures var functions := [HashedNode(), Node(2, "g", None, None)];
            && Sound(QuietTools(), OneEntry()) && CleanFunctions(functions)
            && Findings(Batch(QuietTools(), OneSource(), functions, OneEntry()).0)
               != Findings(Batch(QuietTools(), OneSource(), functions, map[]).0)
  {
    var functions := [HashedNode(), Node(2, "g", None, None)];
    OneEntryFires(functions[1]);
    assert !Plain(QuietTools(), OneSource(), functions[1]);
    WarmBatchEqualsCold(QuietTools(), OneSource(), OneEntry(), functions);
  }

  /** A remembered function beside one without a hash: the shortcut overlooks a success of the full pass. */
  lemma ShortcutCanOverlook()
    ensures var functions := [HashedNode(), Node(2, "g", Some("A.java"), None)];
            && ShortcutFires(QuietTools(), functions, OneEntry())
            && Batch(QuietTools(), OneSource(), functions, OneEntry()).0
               != FullPass(QuietTools(), OneSource(), functions, OneEntry()).0.WithoutSkips()
  {
    var functions := [HashedNode(), Node(2, "g", Some("A.java"), None)];
    OneEntryFires(functions[1]);
    assert Exposed(QuietTools(), OneSource(), functions[1]);
    ShortcutAgreesUpToSkips(QuietTools(), OneSource(), OneEntry(), functions);
  }

  // ---------------------------------------------------------------- running again

  /** The index remembers this function, with these findings. */
  predicate Holds(index: Index, func: Node, w: CfgFunctionWork)
    requires func.filePath.Some? && func.codeHash.Some?
  {
    && Remembered(func, index)
    && var e := index[StableFunctionKey(func.filePath.value, func.name, func.codeHash.value)];
       e.flowCount == w.flowCount && e.vulnerableCount == w.vulnerableCount
  }

  ghost predicate AllHashed(tools: Tools, functions: seq<Node>) {
    forall i | 0 <= i < |functions| && CfgEligible(tools, functions[i]) :: functions[i].codeHash.Some?
  }

  /** A function that the pass completed has a path and a hash, if every eligible function has one. */
  lemma DoneIsHashed(tools: Tools, sources: Sources, index: Index, functions: seq<Node>, i: nat)
    requires AllHashed(tools, functions) && i < |functions| && OutcomeOf(tools, sources, index, functions[i]).Done?
    ensures CfgEligible(tools, functions[i]) && functions[i].filePath.Some? && functions[i].codeHash.Some?
  {
  }

  /** Writing back one more function forgets nothing. */
  lemma HeldNext(tools: Tools, sources: Sources, index: Index, functions: seq<Node>, n: nat, f: Node)
    requires CleanFunctions(functions) && AllHashed(tools, functions) && n < |functions|
    requires CleanNode(f) && f.filePath.Some? && f.codeHash.Some? && OutcomeOf(tools, sources, index, f).Done?
    requires WritesKey(OutcomeOf(tools, sources, index, functions[n]), KeyOf(f))
          || Holds(WrittenBack(tools, sources, index, functions[..n]), f, OutcomeOf(tools, sources, index, f).work)
    ensures Holds(WrittenBack(tools, sources, index, functions[..n + 1]), f, OutcomeOf(tools, sources, index, f).work)
  {
    WrittenBackNext(tools, sources, index, functions, n);
    OneMoreWritten(tools, sources, index, f, functions[n], WrittenBack(tools, sources, index, functions[..n]));
  }

  lemma {:induction false} HeldUntil(tools: Tools, sources: Sources, index: Index, functions: seq<Node>, m: nat,
                                     n: nat, f: Node)
    requires CleanFunctions(functions) && AllHashed(tools, functions) && m <= n <= |functions|
    requires CleanNode(f) && f.filePath.Some? && f.codeHash.Some? && OutcomeOf(tools, sources, index, f).Done?
    requires Holds(WrittenBack(tools, sources, index, functions[..m]), f, OutcomeOf(tools, sources, index, f).work)
    ensures Holds(WrittenBack(tools, sources, index, functions[..n]), f, OutcomeOf(tools, sources, index, f).work)
    decreases n
  {
    if m < n {
      HeldUntil(tools, sources, index, functions, m, n - 1, f);
      HeldNext(tools, sources, index, functions, n - 1, f);
    }
  }

  /** After all functions were written back, every completed one is remembered with its own findings. */
  lemma WrittenOrKept(tools: Tools, sources: Sources, index: Index, functions: seq<Node>, i: nat)
    requires CleanFunctions(functions) && AllHashed(tools, functions) && i < |functions|
    requires OutcomeOf(tools, sources, index, functions[i]).Done?
    ensures functions[i].filePath.Some? && functions[i].codeHash.Some?
    ensures Holds(WrittenBack(tools, sources, index, functions), functions[i],
              OutcomeOf(tools, sources, index, functions[i]).work)
  {
    var f := functions[i];
    DoneIsHashed(tools, sources, index, functions, i);
    assert functions[..|functions|] == functions;
    WritesOwnKey(tools, sources, index, f);
    if OutcomeOf(tools, sources, index, f).work.fromCache {
      CachedIsHeld(tools, sources, index, f);
      assert functions[..0] == [];
      HeldUntil(tools, sources, index, functions, 0, |functions|, f);
    } else {
      HeldNext(tools, sources, index, functions, i, f);
      HeldUntil(tools, sources, index, functions, i + 1, |functions|, f);
    }
  }

  function KeyOf(f: Node): string
    requires f.filePath.Some? && f.codeHash.Some?
  {
    StableFunctionKey(f.filePath.value, f.name, f.codeHash.value)
  }

  /** One more function written back keeps `f` remembered, or makes it so. */
  lemma OneMoreWritten(tools: Tools, sources: Sources, index: Index, f: Node, last: Node, before: Index)
    requires CleanNode(f) && CleanNode(last) && f.codeHash.Some? && (CfgEligible(tools, last) ==> last.codeHash.Some?)
    requires OutcomeOf(tools, sources, index, f).Done? && f.filePath.Some?
    requires WritesKey(OutcomeOf(tools, sources, index, last), KeyOf(f))
          || Holds(before, f, OutcomeOf(tools, sources, index, f).work)
    ensures Holds(Put(before, OutcomeOf(tools, sources, index, last)), f, OutcomeOf(tools, sources, index, f).work)
  {
    if WritesKey(OutcomeOf(tools, sources, index, last), KeyOf(f)) {
      WriterIsHeld(tools, sources, index, f, last, before);
    }
  }

  lemma CachedIsHeld(tools: Tools, sources: Sources, index: Index, f: Node)
    requires f.codeHash.Some?
    requires var o := OutcomeOf(tools, sources, index, f); o.Done? && o.work.fromCache
    ensures f.filePath.Some? && Holds(index, f, OutcomeOf(tools, sources, index, f).work)
  {
  }

  /** A recomputed function writes its own key. */
  lemma WritesOwnKey(tools: Tools, sources: Sources, index: Index, f: Node)
    requires f.codeHash.Some? && OutcomeOf(tools, sources, index, f).Done?
    ensures f.filePath.Some?
    ensures OutcomeOf(tools, sources, index, f).work.fromCache
         || WritesKey(OutcomeOf(tools, sources, index, f),
              StableFunctionKey(f.filePath.value, f.name, f.codeHash.value))
  {
  }

  /** Whichever function writes the key of `f` last, it has the findings of `f`. */
  lemma WriterIsHeld(tools: Tools, sources: Sources, index: Index, f: Node, last: Node, before: Index)
    requires CleanNode(f) && CleanNode(last) && f.codeHash.Some? && last.codeHash.Some?
    requires OutcomeOf(tools, sources, index, f).Done? && f.filePath.Some?
    requires WritesKey(OutcomeOf(tools, sources, index, last),
               StableFunctionKey(f.filePath.value, f.name, f.codeHash.value))
    ensures var e := OutcomeOf(tools, sources, index, last).work.indexEntry.value;
            Holds(before[e.stableKey := e], f, OutcomeOf(tools, sources, index, f).work)
  {
    EntryKey(tools, sources, index, last);
    StableKeyInjective(last.filePath.value, last.name, last.codeHash.value, f.filePath.value, f.name, f.codeHash.value);
  }

  lemma SettledKeeps(tools: Tools, sources: Option<Sources>, index: Index, functions: seq<Node>, i: nat,
                     w: CfgFunctionWork)
    requires i < |functions| && functions[i].filePath.Some? && functions[i].codeHash.Some?
               && Holds(index, functions[i], w)
    ensures Holds(Settled(tools, functions, sources, index), functions[i], w)
  {
    SyncKeepsFindings(index, SyncEntries(functions));
    assert ActiveKey(tools, functions[i], sources).Some?;
    assert ActiveKey(tools, functions[i], sources).value in ActiveKeys(tools, functions, sources);
  }

  /** What a shortcut over the same functions reports of a pass. */
  function AsShortcut(t: Tally): Tally {
    Tally(t.success, 0, 0, 0, 0, t.flows, t.vulnerable, t.success, 0, t.success)
  }

  /** The index holds the finding of a function that the pass completed. */
  ghost predicate Repeatable(tools: Tools, sources: Sources, index: Index, later: Index, func: Node) {
    CfgEligible(tools, func) ==>
      && func.codeHash.Some?
      && OutcomeOf(tools, sources, index, func).Done?
      && Holds(later, func, OutcomeOf(tools, sources, index, func).work)
  }

  lemma RepeatOne(tools: Tools, sources: Sources, index: Index, later: Index, func: Node)
    requires Repeatable(tools, sources, index, later, func)
    ensures ShortcutContribution(tools, func, later) == AsShortcut(Contribution(OutcomeOf(tools, sources, index, func)))
  {
  }

  lemma AsShortcutPlus(t: Tally, u: Tally)
    ensures AsShortcut(t.Plus(u)) == AsShortcut(t).Plus(AsShortcut(u))
  {
  }

  /** The sums of the shortcut, when the index holds the findings of every function that the pass completed. */
  lemma {:induction false} ShortcutRepeats(tools: Tools, sources: Sources, index: Index, later: Index,
                                           functions: seq<Node>)
    requires forall i | 0 <= i < |functions| :: Repeatable(tools, sources, index, later, functions[i])
    ensures ShortcutTotal(tools, functions, later) == AsShortcut(Total(Outcomes(tools, sources, index, functions)))
  {
    if functions != [] {
      var rest := functions[..|functions| - 1];
      assert forall i | 0 <= i < |rest| :: rest[i] == functions[i];
      ShortcutRepeats(tools, sources, index, later, rest);
      TotalSnoc(tools, sources, index, functions);
      RepeatOne(tools, sources, index, later, functions[|functions| - 1]);
      AsShortcutPlus(Total(Outcomes(tools, sources, index, rest)),
                     Contribution(OutcomeOf(tools, sources, index, functions[|functions| - 1])));
    }
  }

  /**
   After a full pass that completed every CFG-language function, at least one of them and all with a hash, the next
   run on the same functions takes the shortcut, recomputes nothing, and reports the same successes and flows. No
   assumption is made on the index before the first run.
   */
  lemma {:induction false} SecondRunTakesShortcut(tools: Tools, sources: Sources, index: Index, functions: seq<Node>)
    requires CleanFunctions(functions) && AllHashed(tools, functions) && SomeEligible(tools, functions)
    requires !ShortcutFires(tools, functions, index)
    requires var t := Batch(tools, sources, functions, index).0; t.missing == 0 && t.failed == 0
    ensures var first, later := Batch(tools, sources, functions, index).0, Batch(tools, sources, functions, index).1;
            && ShortcutFires(tools, functions, later)
            && ShortcutTotal(tools, functions, later) == AsShortcut(first)
  {
    var n := |functions|;
    var written := WrittenBack(tools, sources, index, functions);
    var later := Settled(tools, functions, Some(sources), written);
    assert functions[..n] == functions;
    forall i | 0 <= i < n ensures Repeatable(tools, sources, index, later, functions[i]) {
      if CfgEligible(tools, functions[i]) {
        EligibleDone(tools, sources, index, functions, i);
        WrittenOrKept(tools, sources, index, functions, i);
        SettledKeeps(tools, Some(sources), written, functions, i, OutcomeOf(tools, sources, index, functions[i]).work);
      }
    }
    ShortcutRepeats(tools, sources, index, later, functions);
  }

  /** A function that is not done shows up in the counters. */
  lemma {:induction false} CountersCover(tools: Tools, sources: Sources, index: Index, functions: seq<Node>, i: nat)
    requires i < |functions|
    ensures var c := Contribution(OutcomeOf(tools, sources, index, functions[i]));
            var t := Total(Outcomes(tools, sources, index, functions));
            c.missing <= t.missing && c.failed <= t.failed
  {
    TotalSnoc(tools, sources, index, functions);
    if i < |functions| - 1 {
      CountersCover(tools, sources, index, functions[..|functions| - 1], i);
    }
  }

  lemma EligibleCounts(tools: Tools, sources: Sources, index: Index, func: Node)
    requires CfgEligible(tools, func)
    ensures var o := OutcomeOf(tools, sources, index, func);
            o.Done? || Contribution(o).missing == 1 || Contribution(o).failed == 1
  {
  }

  lemma EligibleDone(tools: Tools, sources: Sources, index: Index, functions: seq<Node>, i: nat)
    requires i < |functions| && CfgEligible(tools, functions[i])
    requires var t := Total(Outcomes(tools, sources, index, functions)); t.missing == 0 && t.failed == 0
    ensures OutcomeOf(tools, sources, index, functions[i]).Done?
  {
    CountersCover(tools, sources, index, functions, i);
    EligibleCounts(tools, sources, index, functions[i]);
  }

  /** Once the shortcut fires it keeps firing, with the same sums. */
  lemma {:induction false} ShortcutStays(tools: Tools, sources: Sources, index: Index, functions: seq<Node>)
    requires ShortcutFires(tools, functions, index)
    ensures ShortcutFires(tools, functions, Batch(tools, sources, functions, index).1)
    ensures ShortcutTotal(tools, functions, Batch(tools, sources, functions, index).1)
              == ShortcutTotal(tools, functions, index)
  {
    var later := Settled(tools, functions, None, index);
    forall i | 0 <= i < |functions| && ShortcutEligible(tools, functions[i])
      ensures Remembered(functions[i], later)
      ensures ShortcutContribution(tools, functions[i], later) == ShortcutContribution(tools, functions[i], index)
    {
      var f := functions[i];
      var e := index[StableFunctionKey(f.filePath.value, f.name, f.codeHash.value)];
      SettledKeeps(tools, None, index, functions, i, CachedWork(f, e));
    }
    SameContributions(tools, functions, index, later);
  }

  lemma {:induction false} SameContributions(tools: Tools, functions: seq<Node>, a: Index, b: Index)
    requires forall i | 0 <= i < |functions| && ShortcutEligible(tools, functions[i]) ::
        ShortcutContribution(tools, functions[i], a) == ShortcutContribution(tools, functions[i], b)
    ensures ShortcutTotal(tools, functions, a) == ShortcutTotal(tools, functions, b)
  {
    if functions != [] {
      var rest := functions[..|functions| - 1];
      assert forall i | 0 <= i < |rest| :: rest[i] == functions[i];
      SameContributions(tools, rest, a, b);
    }
  }

  /** The shortcut fires, with these sums. */
  ghost predicate RemembersAll(tools: Tools, functions: seq<Node>, index: Index, sums: Tally) {
    ShortcutFires(tools, functions, index) && ShortcutTotal(tools, functions, index) == sums
  }

  /** The index after `count` runs on the same functions and sources. */
  function AfterRuns(tools: Tools, sources: Sources, functions: seq<Node>, index: Index, count: nat): Index
    decreases count
  {
    if count == 0 then index
    else AfterRuns(tools, sources, functions, Batch(tools, sources, functions, index).1, count - 1)
  }

  lemma RemembersAllStays(tools: Tools, sources: Sources, functions: seq<Node>, index: Index, sums: Tally)
    requires RemembersAll(tools, functions, index, sums)
    ensures RemembersAll(tools, functions, Batch(tools, sources, functions, index).1, sums)
    ensures Batch(tools, sources, functions, index).0 == sums
  {
    ShortcutStays(tools, sources, index, functions);
  }

  lemma {:induction false} LaterIndexRemembers(tools: Tools, sources: Sources, index: Index, functions: seq<Node>,
                                               sums: Tally, count: nat)
    requires RemembersAll(tools, functions, index, sums)
    ensures RemembersAll(tools, functions, AfterRuns(tools, sources, functions, index, count), sums)
    decreases count
  {
    if count > 0 {
      RemembersAllStays(tools, sources, functions, index, sums);
      LaterIndexRemembers(tools, sources, Batch(tools, sources, functions, index).1, functions, sums, count - 1);
    }
  }

  /**
   After one successful run, and any number of further ones, the next takes the shortcut and reports the same flows.
   */
  lemma EveryLaterRunRecomputesNothing(tools: Tools, sources: Sources, index: Index, functions: seq<Node>, more: nat)
    requires CleanFunctions(functions) && AllHashed(tools, functions) && SomeEligible(tools, functions)
    requires var t := Batch(tools, sources, functions, index).0; t.missing == 0 && t.failed == 0
    ensures var (first, next) := Batch(tools, sources, functions, index);
            var later := AfterRuns(tools, sources, functions, next, more);
            ShortcutFires(tools, functions, later) && Batch(tools, sources, functions, later).0 == AsShortcut(first)
  {
    RunAfterFirst(tools, sources, index, functions);
    var (first, next) := Batch(tools, sources, functions, index);
    LaterRunsRepeat(tools, sources, next, functions, AsShortcut(first), more);
  }

  lemma {:induction false} LaterRunsRepeat(tools: Tools, sources: Sources, index: Index, functions: seq<Node>,
                                           sums: Tally, count: nat)
    requires RemembersAll(tools, functions, index, sums)
    ensures ShortcutFires(tools, functions, AfterRuns(tools, sources, functions, index, count))
    ensures Batch(tools, sources, functions, AfterRuns(tools, sources, functions, index, count)).0 == sums
  {
    LaterIndexRemembers(tools, sources, index, functions, sums, count);
    RemembersAllStays(tools, sources, functions, AfterRuns(tools, sources, functions, index, count), sums);
  }

  lemma RunAfterFirst(tools: Tools, sources: Sources, index: Index, functions: seq<Node>)
    requires CleanFunctions(functions) && AllHashed(tools, functions) && SomeEligible(tools, functions)
    requires var t := Batch(tools, sources, functions, index).0; t.missing == 0 && t.failed == 0
    ensures RemembersAll(tools, functions, Batch(tools, sources, functions, index).1,
                         AsShortcut(Batch(tools, sources, functions, index).0))
  {
    if ShortcutFires(tools, functions, index) {
      ShortcutStays(tools, sources, index, functions);
      ShortcutCounts(tools, functions, index);
    } else {
      SecondRunTakesShortcut(tools, sources, index, functions);
    }
  }

  // ---------------------------------------------------------------- what the index holds after a run

  /** The key of a function in a full pass: under its recorded hash, or else under the hash of its source. */
  function PassKey(tools: Tools, sources: Sources, f: Node): string
    requires Readable(tools, sources, f)
  {
    var path := f.filePath.value;
    StableFunctionKey(path, f.name, if f.codeHash.Some? then f.codeHash.value else tools.hashCode(sources[path]))
  }

  lemma {:induction false} InsertedKeys(index: Index, entries: seq<IndexEntry>)
    ensures Inserted(index, entries).Keys == index.Keys + (set e <- entries :: e.stableKey)
  {
    if entries != [] {
      InsertedKeys(index, entries[..|entries| - 1]);
      assert entries == entries[..|entries| - 1] + [entries[|entries| - 1]];
    }
  }

  lemma {:induction false} EntryIsNew(outcomes: seq<Outcome>, i: nat)
    requires i < |outcomes| && outcomes[i].Done? && outcomes[i].work.indexEntry.Some?
    ensures outcomes[i].work.indexEntry.value in NewEntries(outcomes)
  {
    var n := |outcomes| - 1;
    if i < n {
      EntryIsNew(outcomes[..n], i);
    }
  }

  /** After a full pass every completed function has an entry, also one without a recorded hash. */
  lemma CompletedIsIndexed(tools: Tools, sources: Sources, index: Index, functions: seq<Node>, i: nat)
    requires !ShortcutFires(tools, functions, index) && i < |functions|
    requires OutcomeOf(tools, sources, index, functions[i]).Done?
    ensures Readable(tools, sources, functions[i])
    ensures PassKey(tools, sources, functions[i]) in Batch(tools, sources, functions, index).1
  {
    var f, outcomes := functions[i], Outcomes(tools, sources, index, functions);
    var key, written := PassKey(tools, sources, f), Inserted(index, NewEntries(outcomes));
    InsertedKeys(index, NewEntries(outcomes));
    if outcomes[i].work.indexEntry.Some? {
      EntryIsNew(outcomes, i);
    }
    assert key in written;
    SyncKeepsFindings(written, SyncEntries(functions));
    assert ActiveKey(tools, f, Some(sources)) == Some(key);
    assert key in ActiveKeys(tools, functions, Some(sources));
  }

  /** After a run the index has no stale entry: every key belongs to a function of the current graph. */
  lemma NothingStale(tools: Tools, sources: Sources, index: Index, functions: seq<Node>)
    ensures Batch(tools, sources, functions, index).1.Keys <= ActiveKeys(tools, functions, Some(sources))
  {
    forall i | 0 <= i < |functions| && ActiveKey(tools, functions[i], None).Some?
      ensures ActiveKey(tools, functions[i], Some(sources)) == ActiveKey(tools, functions[i], None)
    {
    }
    assert ActiveKeys(tools, functions, None) <= ActiveKeys(tools, functions, Some(sources));
  }

  predicate Owns(f: Node, key: string) {
    f.filePath.Some? && f.codeHash.Some? && KeyOf(f) == key
  }

  /** Some function that owns the key has this id. */
  ghost predicate CurrentId(functions: seq<Node>, key: string, id: Uuid) {
    exists j | 0 <= j < |functions| :: Owns(functions[j], key) && functions[j].id == id
  }

  lemma CurrentIdSnoc(rest: seq<Node>, f: Node, key: string, id: Uuid)
    ensures CurrentId(rest, key, id) ==> CurrentId(rest + [f], key, id)
    ensures Owns(f, key) && f.id == id ==> CurrentId(rest + [f], key, id)
  {
    if CurrentId(rest, key, id) {
      var j :| 0 <= j < |rest| && Owns(rest[j], key) && rest[j].id == id;
      assert (rest + [f])[j] == rest[j];
    }
    assert (rest + [f])[|rest|] == f;
  }

  /** Id sync leaves the entry of a key under the id of a function that owns it. */
  lemma {:induction false} SyncedIdIsCurrent(index: Index, functions: seq<Node>, key: string)
    requires key in index && exists j | 0 <= j < |functions| :: Owns(functions[j], key)
    requires forall j | 0 <= j < |functions| && Owns(functions[j], key) ::
               functions[j].codeHash == Some(index[key].codeHash)
    ensures key in Synced(index, SyncEntries(functions))
    ensures CurrentId(functions, key, Synced(index, SyncEntries(functions))[key].functionId)
  {
    var rest, f := functions[..|functions| - 1], functions[|functions| - 1];
    assert functions == rest + [f];
    SyncKeepsFindings(index, SyncEntries(rest));
    SyncSnoc(index, rest, f);
    if !Owns(f, key) {
      var j :| 0 <= j < |functions| && Owns(functions[j], key);
      assert rest[j] == functions[j];
      SyncedIdIsCurrent(index, rest, key);
    }
    CurrentIdSnoc(rest, f, key, Synced(index, SyncEntries(functions))[key].functionId);
  }

  lemma {:induction false} SyncSnoc(index: Index, rest: seq<Node>, f: Node)
    ensures Synced(index, SyncEntries(rest + [f]))
         == if f.filePath.Some? && f.codeHash.Some?
            then SyncedOne(Synced(index, SyncEntries(rest)),
              SyncEntry(f.id, f.name, f.filePath.value, f.codeHash.value))
            else Synced(index, SyncEntries(rest))
  {
    assert (rest + [f])[..|rest|] == rest;
    if f.filePath.Some? && f.codeHash.Some? {
      var all := SyncEntries(rest) + [SyncEntry(f.id, f.name, f.filePath.value, f.codeHash.value)];
      assert all[..|all| - 1] == SyncEntries(rest);
    } else {
      assert SyncEntries(rest) + [] == SyncEntries(rest);
    }
  }

  lemma SettledIdIsCurrent(tools: Tools, sources: Option<Sources>, index: Index, functions: seq<Node>, i: nat)
    requires CleanFunctions(functions) && i < |functions| && functions[i].filePath.Some? && functions[i].codeHash.Some?
    requires Remembered(functions[i], Settled(tools, functions, sources, index))
    ensures CurrentId(functions, KeyOf(functions[i]),
              Settled(tools, functions, sources, index)[KeyOf(functions[i])].functionId)
  {
    var f, key := functions[i], KeyOf(functions[i]);
    SyncKeepsFindings(index, SyncEntries(functions));
    forall j | 0 <= j < |functions| && Owns(functions[j], key) ensures functions[j].codeHash == f.codeHash {
      var g := functions[j];
      StableKeyInjective(g.filePath.value, g.name, g.codeHash.value, f.filePath.value, f.name, f.codeHash.value);
    }
    assert Owns(f, key);
    SyncedIdIsCurrent(index, functions, key);
  }

  /**
   After a run, a remembered function that shares its key with no other is
   found under its own id: no remap is left to do.
   */
  lemma RunSettlesIds(tools: Tools, sources: Sources, index: Index, functions: seq<Node>, i: nat)
    requires CleanFunctions(functions) && i < |functions| && functions[i].filePath.Some? && functions[i].codeHash.Some?
    requires Remembered(functions[i], Batch(tools, sources, functions, index).1)
    requires forall j | 0 <= j < |functions| && j != i :: !Owns(functions[j], KeyOf(functions[i]))
    ensures TryFastCacheHit(functions[i], functions[i].filePath.value, functions[i].codeHash.value,
                            Batch(tools, sources, functions, index).1).Some?
  {
    if ShortcutFires(tools, functions, index) {
      SettledIdIsCurrent(tools, None, index, functions, i);
    } else {
      SettledIdIsCurrent(tools, Some(sources), WrittenBack(tools, sources, index, functions), functions, i);
    }
  }
}
