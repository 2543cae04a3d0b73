/**
 Choosing what to install from the embedded agent pack (src/cli/agent_pack.rs). Paths are texts in the normal form in
 which the archive stores them; the agent files are visited in the arbitrary order of a hash map.
 */
module AgentPack {
  import opened Wrappers

  datatype AgentEntry = AgentEntry(id: string, agentDir: string, skillsSubdir: string, commandsPath: string)

  datatype Kind = Skill | Policy | Meta | Command

  datatype Artifact = Artifact(agentId: string, workflow: Option<string>, kind: Kind, repoRel: string,
    bundleRel: string)

  // ---------------------------------------------------------------- texts and paths

  predicate StartsWith(s: string, prefix: string) {
    prefix <= s
  }

  function StripPrefix(s: string, prefix: string): Option<string> {
    if prefix <= s then Some(s[|prefix|..]) else None
  }

  function Or(stripped: Option<string>, default: string): string {
    match stripped case Some(s) => s case None => default
  }

  /** `trim_matches('/')`. */
  function TrimSlashes(s: string): string
    decreases |s|
  {
    if s != "" && s[0] == '/' then TrimSlashes(s[1..])
    else if s != "" && s[|s| - 1] == '/' then TrimSlashes(s[..|s| - 1])
    else s
  }

  /** `PathBuf::join`: an absolute path replaces the directory. */
  function Join(dir: string, rest: string): string {
    if rest != "" && rest[0] == '/' then rest
    else if dir == "" then rest
    else if dir[|dir| - 1] == '/' then dir + rest
    else dir + "/" + rest
  }

  /** The text before the first slash. */
  function FirstComponent(s: string): string {
    if s == "" || s[0] == '/' then "" else [s[0]] + FirstComponent(s[1..])
  }

  /** The text behind the last slash. */
  function LastComponent(s: string): string {
    if s == "" || s[|s| - 1] == '/' then "" else LastComponent(s[..|s| - 1]) + [s[|s| - 1]]
  }

  /** The text before the last point, unless that would leave nothing. */
  function Stem(name: string): string {
    if exists i | 0 < i < |name| :: name[i] == '.' then BeforeLastPoint(name) else name
  }

  function BeforeLastPoint(name: string): string {
    if name == "" then ""
    else if name[|name| - 1] == '.' then name[..|name| - 1]
    else BeforeLastPoint(name[..|name| - 1])
  }

  function SkillKind(afterEmbed: string, skillsSubdir: string): Kind {
    if FirstComponent(Or(StripPrefix(afterEmbed, skillsSubdir + "/"), afterEmbed)) == "rgctl" then Meta else Skill
  }

  function WorkflowFromSkillPath(afterEmbed: string, skillsSubdir: string): Option<string> {
    match StripPrefix(afterEmbed, skillsSubdir + "/")
    case None => None
    case Some(rest) =>
      var name := FirstComponent(rest);
      if name == "rgctl" then None else Some(Or(StripPrefix(name, "rgctl-"), name))
  }

  function CommandWorkflowId(afterEmbed: string): Option<string> {
    var name := LastComponent(afterEmbed);
    if name == "" || name == ".." then None
    else
      var file := Stem(name);
      Some(Or(StripPrefix(file, "rgctl-"), Or(StripPrefix(file, "rgctl:"), file)))
  }

  /** A skill file belongs to a workflow exactly when it is not part of the meta skill. */
  lemma WorkflowUnlessMeta(afterEmbed: string, skillsSubdir: string)
    requires StartsWith(afterEmbed, skillsSubdir + "/")
    ensures WorkflowFromSkillPath(afterEmbed, skillsSubdir).None? <==> SkillKind(afterEmbed, skillsSubdir) == Meta
  {
  }

  // ---------------------------------------------------------------- one directory of one agent

  function EmbedPrefix(agentId: string): string {
    "agents/host-" + agentId + "/"
  }

  /** The directories of an agent in the archive, below its own prefix: skills always, commands when it has any. */
  datatype Source = Source(entry: AgentEntry, subdir: string, isCommands: bool)

  function SourcePrefix(s: Source): string {
    EmbedPrefix(s.entry.id) + s.subdir + "/"
  }

  function AfterEmbed(s: Source, path: string): string {
    Or(StripPrefix(path, EmbedPrefix(s.entry.id)), path)
  }

  function Dest(s: Source, path: string): string {
    Join(s.entry.agentDir, AfterEmbed(s, path))
  }

  /** The artifact that a file of the directory becomes. */
  function Make(s: Source, path: string): Artifact {
    var after := AfterEmbed(s, path);
    if s.isCommands then Artifact(s.entry.id, CommandWorkflowId(after), Command, Dest(s, path), path)
    else Artifact(s.entry.id, WorkflowFromSkillPath(after, s.subdir), SkillKind(after, s.subdir), Dest(s, path), path)
  }

  lemma JoinInjective(dir: string, a: string, b: string)
    requires a != "" && b != "" && a[0] == b[0] && Join(dir, a) == Join(dir, b)
    ensures a == b
  {
    if a[0] != '/' && dir != "" {
      var head := if dir[|dir| - 1] == '/' then dir else dir + "/";
      assert Join(dir, a) == head + a && Join(dir, b) == head + b;
      assert (head + a)[|head|..] == a;
      assert (head + b)[|head|..] == b;
    }
  }

  /** Two files of one directory never go to the same place. */
  lemma DestInjective(s: Source, p: string, q: string)
    requires InDirectory(s, p) && InDirectory(s, q) && Dest(s, p) == Dest(s, q)
    ensures p == q
  {
    var embed, inner := EmbedPrefix(s.entry.id), s.subdir + "/";
    assert SourcePrefix(s) == embed + inner;
    InsidePrefix(embed, inner, p);
    InsidePrefix(embed, inner, q);
    JoinInjective(s.entry.agentDir, p[|embed|..], q[|embed|..]);
    assert p == embed + p[|embed|..];
    assert q == embed + q[|embed|..];
  }

  lemma InsidePrefix(embed: string, inner: string, p: string)
    requires inner != "" && embed + inner <= p
    ensures embed <= p && |p| > |embed| && p[|embed|] == inner[0] && inner <= p[|embed|..]
  {
    assert p[..|embed + inner|] == embed + inner;
    assert p[..|embed|] == embed;
    assert p[|embed|] == (embed + inner)[|embed|];
    assert p[|embed|..][..|inner|] == inner;
  }

  // ---------------------------------------------------------------- what has been collected

  /** The collected artifacts and the destinations that are taken. */
  datatype Acc = Acc(artifacts: set<Artifact>, seen: set<string>)

  predicate InDirectory(s: Source, path: string) {
    StartsWith(path, SourcePrefix(s))
  }

  /** The files of the directory whose destination is still free. */
  function FreeFiles(seen: set<string>, files: set<string>, s: Source): set<string> {
    set p <- files | InDirectory(s, p) && Dest(s, p) !in seen
  }

  function Made(paths: set<string>, s: Source): set<Artifact> {
    set p <- paths :: Make(s, p)
  }

  function Dests(paths: set<string>, s: Source): set<string> {
    set p <- paths :: Dest(s, p)
  }

  /** Every file of the directory whose destination is still free becomes an artifact and takes its destination. */
  function Added(acc: Acc, files: set<string>, s: Source): Acc {
    var free := FreeFiles(acc.seen, files, s);
    Acc(acc.artifacts + Made(free, s), acc.seen + Dests(free, s))
  }

  /** The command directory of an agent below its own directory, without slashes around it. */
  function CommandSubdir(e: AgentEntry): string {
    TrimSlashes(Or(StripPrefix(e.commandsPath, e.agentDir + "/"), e.commandsPath))
  }

  /** The directories that an agent contributes, in the order in which they are visited. */
  function SourcesOf(e: AgentEntry, skills: bool): seq<Source> {
    if !skills then []
    else [Source(e, e.skillsSubdir, false)] +
         if e.commandsPath != "" && CommandSubdir(e) != "" then [Source(e, CommandSubdir(e), true)] else []
  }

  function AddedAll(acc: Acc, files: set<string>, sources: seq<Source>): Acc {
    if sources == [] then acc
    else Added(AddedAll(acc, files, sources[..|sources| - 1]), files, sources[|sources| - 1])
  }

  function FindAgent(agents: seq<AgentEntry>, id: string): Option<AgentEntry> {
    if agents == [] then None else if agents[0].id == id then Some(agents[0]) else FindAgent(agents[1..], id)
  }

  /** All directories of all chosen agents, or the first agent that is missing from the manifest. */
  function AllSources(agents: seq<AgentEntry>, ids: seq<string>, skills: bool): Result<seq<Source>> {
    if ids == [] then Ok([])
    else
      match AllSources(agents, ids[..|ids| - 1], skills)
      case Err(missing) => Err(missing)
      case Ok(sources) =>
        match FindAgent(agents, ids[|ids| - 1])
        case None => Err(ids[|ids| - 1])
        case Some(e) => Ok(sources + SourcesOf(e, skills))
  }

  const POLICY_BUNDLE := "policy/rgctl-structural.mdc"
  const POLICY_DEST := ".cursor/rules/rgctl-structural.mdc"

  function WithPolicy(acc: Acc, files: set<string>, withPolicy: bool): Acc {
    if withPolicy && POLICY_BUNDLE in files && POLICY_DEST !in acc.seen then
      Acc(acc.artifacts + {Artifact("cursor", None, Policy, POLICY_DEST, POLICY_BUNDLE)}, acc.seen + {POLICY_DEST})
    else acc
  }

  /** What is installed: a function of pack, manifest, agent list and flags alone. */
  function Installed(agents: seq<AgentEntry>, files: set<string>, ids: seq<string>, skills: bool, withPolicy: bool):
    Result<Acc> {
    match AllSources(agents, ids, skills)
    case Err(missing) => Err(missing)
    case Ok(sources) => Ok(WithPolicy(AddedAll(Acc({}, {}), files, sources), files, withPolicy))
  }

  // ---------------------------------------------------------------- collecting, in place

  function ToSet(out: seq<Artifact>): set<Artifact> {
    set a <- out
  }

  /** The list that is filled, and the destinations that are taken. */
  class Collector {
    var out: seq<Artifact>
    var seenDest: set<string>

    function View(): Acc
      reads this
    {
      Acc(ToSet(out), seenDest)
    }

    /** No two artifacts share a destination, and exactly the destinations in the list are taken. */
    ghost predicate Valid()
      reads this
    {
      && (forall i, j | 0 <= i < j < |out| :: out[i].repoRel != out[j].repoRel)
      && seenDest == set a <- out :: a.repoRel
    }

    constructor ()
      ensures Valid() && View() == Acc({}, {})
    {
      out, seenDest := [], {};
    }

    method Push(a: Artifact)
      requires Valid() && a.repoRel !in seenDest
      modifies this
      ensures Valid() && View() == Acc(old(View()).artifacts + {a}, old(View()).seen + {a.repoRel})
      ensures out == old(out) + [a]
    {
      assert forall b <- out :: b.repoRel in seenDest;
      seenDest := seenDest + {a.repoRel};
      out := out + [a];
    }

    /** Visit the files in an arbitrary order; the outcome does not depend on it. */
    method CollectDirectory(files: set<string>, s: Source)
      requires Valid()
      modifies this
      ensures Valid() && View() == Added(old(View()), files, s)
    {
      ghost var before := View();
      var pending := files;
      while pending != {}
        invariant Valid() && pending <= files
        invariant View() == Added(before, files - pending, s)
        decreases |pending|
      {
        var path :| path in pending;
        AddOneFile(before, files - pending, s, path);
        assert files - (pending - {path}) == (files - pending) + {path};
        pending := pending - {path};
        if !InDirectory(s, path) {
          continue;
        }
        if Dest(s, path) in seenDest {
          continue;
        }
        Push(Make(s, path));
      }
      assert files - {} == files;
    }
  }

  lemma AddOneFile(acc: Acc, visited: set<string>, s: Source, path: string)
    requires path !in visited
    ensures var before, after := Added(acc, visited, s), Added(acc, visited + {path}, s);
            if InDirectory(s, path) && Dest(s, path) !in before.seen
            then after == Acc(before.artifacts + {Make(s, path)}, before.seen + {Make(s, path).repoRel})
            else after == before
  {
    var free := FreeFiles(acc.seen, visited, s);
    if InDirectory(s, path) && Dest(s, path) !in acc.seen {
      assert FreeFiles(acc.seen, visited + {path}, s) == free + {path};
      assert Made(free + {path}, s) == Made(free, s) + {Make(s, path)};
      assert Dests(free + {path}, s) == Dests(free, s) + {Dest(s, path)};
      assert Dest(s, path) !in Dests(free, s) by {
        forall q <- free ensures Dest(s, q) != Dest(s, path) {
          if Dest(s, q) == Dest(s, path) {
            DestInjective(s, q, path);
          }
        }
      }
    } else {
      assert FreeFiles(acc.seen, visited + {path}, s) == free;
    }
  }

  method CollectArtifacts(agents: seq<AgentEntry>, files: set<string>, ids: seq<string>, skills: bool, withPolicy: bool)
    returns (r: Result<seq<Artifact>>)
    ensures match Installed(agents, files, ids, skills, withPolicy)
            case Err(missing) => r == Err(missing)
            case Ok(acc) =>
              && r.Ok? && ToSet(r.value) == acc.artifacts
              && (forall i, j | 0 <= i < j < |r.value| :: r.value[i].repoRel != r.value[j].repoRel)
              && acc.seen == (set a <- r.value :: a.repoRel)
  {
    var collector := new Collector();
    ghost var sources: seq<Source> := [];
    for i := 0 to |ids|
      invariant collector.Valid()
      invariant AllSources(agents, ids[..i], skills) == Ok(sources)
      invariant collector.View() == AddedAll(Acc({}, {}), files, sources)
    {
      assert ids[..i + 1][..i] == ids[..i];
      var found := FindAgent(agents, ids[i]);
      if found.None? {
        MissingEarly(agents, ids, skills, i + 1);
        return Err(ids[i]);
      }
      CollectAgent(collector, files, found.value, skills, sources);
      sources := sources + SourcesOf(found.value, skills);
    }
    assert ids[..|ids|] == ids;
    if withPolicy {
      if POLICY_BUNDLE in files && POLICY_DEST !in collector.seenDest {
        collector.Push(Artifact("cursor", None, Policy, POLICY_DEST, POLICY_BUNDLE));
      }
    }
    return Ok(collector.out);
  }

  method CollectAgent(collector: Collector, files: set<string>, e: AgentEntry, skills: bool, ghost sources: seq<Source>)
    requires collector.Valid() && collector.View() == AddedAll(Acc({}, {}), files, sources)
    modifies collector
    ensures collector.Valid()
    ensures collector.View() == AddedAll(Acc({}, {}), files, sources + SourcesOf(e, skills))
  {
    if !skills {
      assert sources + SourcesOf(e, skills) == sources;
      return;
    }
    var skillDir := Source(e, e.skillsSubdir, false);
    AddedOneMore(Acc({}, {}), files, sources, skillDir);
    collector.CollectDirectory(files, skillDir);
    if e.commandsPath != "" {
      var cmdSubdir := CommandSubdir(e);
      if cmdSubdir != "" {
        var commandDir := Source(e, cmdSubdir, true);
        AddedOneMore(Acc({}, {}), files, sources + [skillDir], commandDir);
        assert sources + SourcesOf(e, skills) == sources + [skillDir] + [commandDir];
        collector.CollectDirectory(files, commandDir);
        return;
      }
    }
    assert sources + SourcesOf(e, skills) == sources + [skillDir];
  }

  lemma {:induction false} AddedOneMore(acc: Acc, files: set<string>, sources: seq<Source>, s: Source)
    ensures AddedAll(acc, files, sources + [s]) == Added(AddedAll(acc, files, sources), files, s)
  {
    assert (sources + [s])[..|sources|] == sources;
  }

  /** A missing agent decides the outcome, whatever ids follow. */
  lemma {:induction false} MissingEarly(agents: seq<AgentEntry>, ids: seq<string>, skills: bool, n: nat)
    requires n <= |ids| && AllSources(agents, ids[..n], skills).Err?
    ensures AllSources(agents, ids, skills) == AllSources(agents, ids[..n], skills)
    decreases |ids|
  {
    if n < |ids| {
      assert ids[..|ids| - 1][..n] == ids[..n];
      MissingEarly(agents, ids[..|ids| - 1], skills, n);
    } else {
      assert ids[..n] == ids;
    }
  }

  // ---------------------------------------------------------------- what the outcome satisfies

  /** Taken destinations stay taken, and collected artifacts stay collected. */
  lemma {:induction false} AddedGrows(acc: Acc, files: set<string>, sources: seq<Source>, n: nat)
    requires n <= |sources|
    ensures AddedAll(acc, files, sources[..n]).seen <= AddedAll(acc, files, sources).seen
    ensures AddedAll(acc, files, sources[..n]).artifacts <= AddedAll(acc, files, sources).artifacts
    decreases |sources|
  {
    if n < |sources| {
      assert sources[..|sources| - 1][..n] == sources[..n];
      AddedGrows(acc, files, sources[..|sources| - 1], n);
    } else {
      assert sources[..n] == sources;
    }
  }

  /** Every pack file below a visited directory has its destination filled. */
  lemma {:induction false} DirectoryCovered(acc: Acc, files: set<string>, sources: seq<Source>, k: nat, path: string)
    requires k < |sources| && path in files && InDirectory(sources[k], path)
    ensures Dest(sources[k], path) in AddedAll(acc, files, sources).seen
  {
    var upTo := sources[..k + 1];
    assert upTo[..k] == sources[..k] && upTo[k] == sources[k];
    assert Dest(sources[k], path) in AddedAll(acc, files, upTo).seen;
    AddedGrows(acc, files, sources, k + 1);
  }

  /** The directories of every chosen agent are among those visited. */
  lemma {:induction false} AgentVisited(agents: seq<AgentEntry>, ids: seq<string>, skills: bool, id: string)
    requires AllSources(agents, ids, skills).Ok? && id in ids
    ensures FindAgent(agents, id).Some?
    ensures forall s <- SourcesOf(FindAgent(agents, id).value, skills) :: s in AllSources(agents, ids, skills).value
  {
    var rest := ids[..|ids| - 1];
    assert ids == rest + [ids[|ids| - 1]];
    if id != ids[|ids| - 1] {
      AgentVisited(agents, rest, skills, id);
    }
  }

  /** Coverage: each pack file below the skills or commands prefix of a chosen agent is installed where it belongs. */
  lemma {:induction false} EveryFileInstalled(agents: seq<AgentEntry>, files: set<string>, ids: seq<string>,
                                              withPolicy: bool, id: string, s: Source, path: string)
    requires Installed(agents, files, ids, true, withPolicy).Ok? && id in ids
    requires FindAgent(agents, id).Some? && s in SourcesOf(FindAgent(agents, id).value, true)
    requires path in files && InDirectory(s, path)
    ensures Dest(s, path) in Installed(agents, files, ids, true, withPolicy).value.seen
  {
    AgentVisited(agents, ids, true, id);
    var sources := AllSources(agents, ids, true).value;
    var k :| 0 <= k < |sources| && sources[k] == s;
    DirectoryCovered(Acc({}, {}), files, sources, k, path);
  }

  /** The artifact is made from a file below the directory, of a kind that the directory has. */
  ghost predicate ComesFrom(a: Artifact, files: set<string>, s: Source) {
    && a.bundleRel in files && InDirectory(s, a.bundleRel)
    && a.agentId == s.entry.id && a.repoRel == Dest(s, a.bundleRel)
    && (if s.isCommands then a.kind == Command else a.kind == Skill || a.kind == Meta)
    && (!s.isCommands ==> (a.workflow.None? <==> a.kind == Meta))
  }

  lemma MadeComesFrom(files: set<string>, s: Source, path: string)
    requires path in files && InDirectory(s, path)
    ensures ComesFrom(Make(s, path), files, s)
  {
    if !s.isCommands {
      var embed, inner := EmbedPrefix(s.entry.id), s.subdir + "/";
      assert SourcePrefix(s) == embed + inner;
      InsidePrefix(embed, inner, path);
      WorkflowUnlessMeta(AfterEmbed(s, path), s.subdir);
    }
  }

  /** Nothing else is collected: every artifact comes from a file below a visited directory. */
  lemma {:induction false} CollectedComesFrom(files: set<string>, sources: seq<Source>, a: Artifact) returns (s: Source)
    requires a in AddedAll(Acc({}, {}), files, sources).artifacts
    ensures s in sources && ComesFrom(a, files, s)
  {
    var rest, last := sources[..|sources| - 1], sources[|sources| - 1];
    var before := AddedAll(Acc({}, {}), files, rest);
    if a in before.artifacts {
      s := CollectedComesFrom(files, rest, a);
    } else {
      var path :| path in FreeFiles(before.seen, files, last) && Make(last, path) == a;
      MadeComesFrom(files, last, path);
      s := last;
    }
  }

  /** Every installed artifact is the policy, if that was asked for, or comes from a directory of a chosen agent. */
  lemma {:induction false} NothingElseInstalled(agents: seq<AgentEntry>, files: set<string>, ids: seq<string>,
                                                skills: bool, withPolicy: bool, a: Artifact)
    requires Installed(agents, files, ids, skills, withPolicy).Ok?
    requires a in Installed(agents, files, ids, skills, withPolicy).value.artifacts
    ensures a.bundleRel in files
    ensures (withPolicy && a.kind == Policy)
         || exists s <- AllSources(agents, ids, skills).value :: ComesFrom(a, files, s)
  {
    var sources := AllSources(agents, ids, skills).value;
    if a in AddedAll(Acc({}, {}), files, sources).artifacts {
      var s := CollectedComesFrom(files, sources, a);
    }
  }

  /** Visiting a directory again adds nothing. */
  lemma {:induction false} VisitAgain(acc: Acc, files: set<string>, sources: seq<Source>, s: Source)
    requires s in sources
    ensures Added(AddedAll(acc, files, sources), files, s) == AddedAll(acc, files, sources)
  {
    var k :| 0 <= k < |sources| && sources[k] == s;
    forall path <- files | InDirectory(s, path) ensures Dest(s, path) in AddedAll(acc, files, sources).seen {
      DirectoryCovered(acc, files, sources, k, path);
    }
  }

  lemma {:induction false} VisitAllAgain(acc: Acc, files: set<string>, sources: seq<Source>, more: seq<Source>)
    requires forall s <- more :: s in sources
    ensures AddedAll(acc, files, sources + more) == AddedAll(acc, files, sources)
  {
    if more == [] {
      assert sources + more == sources;
    } else {
      var rest, last := more[..|more| - 1], more[|more| - 1];
      calc {
        AddedAll(acc, files, sources + more);
        { assert sources + more == sources + rest + [last]; }
        AddedAll(acc, files, sources + rest + [last]);
        { AddedOneMore(acc, files, sources + rest, last); }
        Added(AddedAll(acc, files, sources + rest), files, last);
        { VisitAllAgain(acc, files, sources, rest); }
        Added(AddedAll(acc, files, sources), files, last);
        { VisitAgain(acc, files, sources, last); }
        AddedAll(acc, files, sources);
      }
    }
  }

  lemma {:induction false} SourcesAppend(agents: seq<AgentEntry>, ids: seq<string>, more: seq<string>, skills: bool)
    requires AllSources(agents, ids, skills).Ok? && forall id <- more :: id in ids
    ensures AllSources(agents, ids + more, skills).Ok?
    ensures AllSources(agents, ids, skills).value <= AllSources(agents, ids + more, skills).value
    ensures forall s <- AllSources(agents, ids + more, skills).value :: s in AllSources(agents, ids, skills).value
    decreases |more|
  {
    if more == [] {
      assert ids + more == ids;
    } else {
      var rest, last := more[..|more| - 1], more[|more| - 1];
      SourcesAppend(agents, ids, rest, skills);
      assert (ids + more)[..|ids + more| - 1] == ids + rest;
      AgentVisited(agents, ids, skills, last);
    }
  }

  /** Naming agents again, once or often, installs exactly the same. */
  lemma RepeatingAgentsAddsNothing(agents: seq<AgentEntry>, files: set<string>, ids: seq<string>, more: seq<string>,
                                   skills: bool, withPolicy: bool)
    requires Installed(agents, files, ids, skills, withPolicy).Ok? && forall id <- more :: id in ids
    ensures Installed(agents, files, ids + more, skills, withPolicy)
              == Installed(agents, files, ids, skills, withPolicy)
  {
    SourcesAppend(agents, ids, more, skills);
    var first, all := AllSources(agents, ids, skills).value, AllSources(agents, ids + more, skills).value;
    assert all == first + all[|first|..];
    forall s <- all[|first|..] ensures s in first {
      assert s in all;
    }
    VisitAllAgain(Acc({}, {}), files, first, all[|first|..]);
  }

  /** The list fails exactly when it names an agent that the manifest does not have. */
  lemma {:induction false} FailsExactlyOnUnknown(agents: seq<AgentEntry>, ids: seq<string>, skills: bool)
    ensures AllSources(agents, ids, skills).Err? <==> exists id <- ids :: FindAgent(agents, id).None?
  {
    if ids != [] {
      var rest, last := ids[..|ids| - 1], ids[|ids| - 1];
      FailsExactlyOnUnknown(agents, rest, skills);
      assert ids == rest + [last];
      if exists id <- ids :: FindAgent(agents, id).None? {
        var id :| id in ids && FindAgent(agents, id).None?;
        assert id in rest || id == last;
      }
      if exists id <- rest :: FindAgent(agents, id).None? {
        var id :| id in rest && FindAgent(agents, id).None?;
        assert id in ids;
      }
      assert last in ids;
    }
  }

  // ---------------------------------------------------------------- the outcome, from pack, manifest and flags alone

  /**
   Where a file goes that stands at `rest` below an agent's prefix: below the agent's directory, unless it is absolute.
   */
  predicate GoesTo(agentDir: string, rest: string, repoRel: string) {
    && (rest != "" && rest[0] == '/' ==> repoRel == rest)
    && (rest == "" || rest[0] != '/' ==>
          && (agentDir == "" ==> repoRel == rest)
          && (agentDir != "" && agentDir[|agentDir| - 1] == '/' ==> repoRel == agentDir + rest)
          && (agentDir != "" && agentDir[|agentDir| - 1] != '/' ==> repoRel == agentDir + "/" + rest))
  }

  /** The first component of `rest` behind the skills directory is `name`. */
  predicate SkillNamed(skillsSubdir: string, rest: string, name: string, tail: string) {
    rest == skillsSubdir + "/" + name + tail && '/' !in name && (tail == "" || tail[0] == '/')
  }

  /**
   The meta skill is the one named `rgctl` and belongs to no workflow; else the workflow is the name without `rgctl-`.
   */
  predicate IsSkill(a: Artifact, name: string) {
    && (name == "rgctl" ==> a.kind == Meta && a.workflow == None)
    && (name != "rgctl" ==> a.kind == Skill)
    && (name != "rgctl" && "rgctl-" <= name ==> a.workflow == Some(name[6..]))
    && (name != "rgctl" && !("rgctl-" <= name) ==> a.workflow == Some(name))
  }

  lemma {:induction false} FirstComponentSplits(s: string)
    ensures FirstComponent(s) <= s && '/' !in FirstComponent(s)
    ensures var tail := s[|FirstComponent(s)|..]; tail == "" || tail[0] == '/'
  {
    if s != "" && s[0] != '/' {
      FirstComponentSplits(s[1..]);
    }
  }

  /** An artifact of this agent: what it is called and where it goes follow from its place in the pack. */
  ghost predicate FromAgent(a: Artifact, files: set<string>, e: AgentEntry, rest: string) {
    && a.bundleRel in files && a.bundleRel == "agents/host-" + e.id + "/" + rest
    && a.agentId == e.id && GoesTo(e.agentDir, rest, a.repoRel)
    && (if a.kind == Command then CommandSubdir(e) + "/" <= rest && a.workflow == CommandWorkflowId(rest)
        else exists name, tail :: SkillNamed(e.skillsSubdir, rest, name, tail) && IsSkill(a, name))
  }

  /** Where a file below the prefix of an agent goes. */
  lemma DestOfRest(s: Source, rest: string)
    ensures AfterEmbed(s, EmbedPrefix(s.entry.id) + rest) == rest
    ensures GoesTo(s.entry.agentDir, rest, Dest(s, EmbedPrefix(s.entry.id) + rest))
  {
    var path := EmbedPrefix(s.entry.id) + rest;
    assert path[|EmbedPrefix(s.entry.id)|..] == rest;
  }

  lemma SkillOfRest(skillsSubdir: string, rest: string, a: Artifact)
    requires skillsSubdir + "/" <= rest
    requires a.kind == SkillKind(rest, skillsSubdir) && a.workflow == WorkflowFromSkillPath(rest, skillsSubdir)
    ensures exists name, tail :: SkillNamed(skillsSubdir, rest, name, tail) && IsSkill(a, name)
  {
    var inner := skillsSubdir + "/";
    var behind := rest[|inner|..];
    FirstComponentSplits(behind);
    var name := FirstComponent(behind);
    assert rest == inner + name + behind[|name|..];
    assert SkillNamed(skillsSubdir, rest, name, behind[|name|..]) && IsSkill(a, name);
  }

  lemma MadeFromAgent(files: set<string>, s: Source, path: string)
    requires path in files && InDirectory(s, path)
    requires s.subdir == if s.isCommands then CommandSubdir(s.entry) else s.entry.skillsSubdir
    ensures FromAgent(Make(s, path), files, s.entry, path[|EmbedPrefix(s.entry.id)|..])
  {
    var embed, inner := EmbedPrefix(s.entry.id), s.subdir + "/";
    assert SourcePrefix(s) == embed + inner;
    InsidePrefix(embed, inner, path);
    var rest := path[|embed|..];
    assert path == embed + rest;
    DestOfRest(s, rest);
    if !s.isCommands {
      SkillOfRest(s.entry.skillsSubdir, rest, Make(s, path));
    }
  }

  lemma {:induction false} FoundAgent(agents: seq<AgentEntry>, id: string)
    ensures FindAgent(agents, id).Some? ==>
              exists i | 0 <= i < |agents| ::
                && agents[i] == FindAgent(agents, id).value && agents[i].id == id
                && forall j | 0 <= j < i :: agents[j].id != id
    ensures FindAgent(agents, id).None? ==> forall e <- agents :: e.id != id
  {
    if agents != [] && agents[0].id != id {
      FoundAgent(agents[1..], id);
      if FindAgent(agents, id).Some? {
        var i :| 0 <= i < |agents| - 1 && agents[1..][i] == FindAgent(agents, id).value
          && forall j | 0 <= j < i :: agents[1..][j].id != id;
        assert agents[i + 1] == agents[1..][i];
        assert forall j | 0 < j < i + 1 :: agents[j] == agents[1..][j - 1];
      }
    }
  }

  /** Every visited directory is the skills or commands directory of an entry whose id was chosen. */
  lemma {:induction false} SourceOfAgent(agents: seq<AgentEntry>, ids: seq<string>, skills: bool, s: Source)
    requires AllSources(agents, ids, skills).Ok? && s in AllSources(agents, ids, skills).value
    ensures skills && s.entry in agents && s.entry.id in ids
    ensures s.subdir == if s.isCommands then CommandSubdir(s.entry) else s.entry.skillsSubdir
  {
    var rest, id := ids[..|ids| - 1], ids[|ids| - 1];
    if s in AllSources(agents, rest, skills).value {
      SourceOfAgent(agents, rest, skills, s);
    } else {
      FoundAgent(agents, id);
    }
  }

  lemma {:induction false} CollectedMade(files: set<string>, sources: seq<Source>, a: Artifact)
    returns (s: Source, path: string)
    requires a in AddedAll(Acc({}, {}), files, sources).artifacts
    ensures s in sources && path in files && InDirectory(s, path) && a == Make(s, path)
  {
    var rest, last := sources[..|sources| - 1], sources[|sources| - 1];
    var before := AddedAll(Acc({}, {}), files, rest);
    if a in before.artifacts {
      s, path := CollectedMade(files, rest, a);
    } else {
      path :| path in FreeFiles(before.seen, files, last) && Make(last, path) == a;
      s := last;
    }
  }

  function PolicyArtifact(): Artifact {
    Artifact("cursor", None, Policy, ".cursor/rules/rgctl-structural.mdc", "policy/rgctl-structural.mdc")
  }

  /**
   Every artifact is the policy that was asked for, or stands below a chosen agent and goes where that agent wants it.
   */
  lemma ArtifactsFromInputs(agents: seq<AgentEntry>, files: set<string>, ids: seq<string>, skills: bool,
                            withPolicy: bool, a: Artifact)
    requires Installed(agents, files, ids, skills, withPolicy).Ok?
    requires a in Installed(agents, files, ids, skills, withPolicy).value.artifacts
    ensures || (withPolicy && a == PolicyArtifact() && a.bundleRel in files)
            || (skills && exists e, rest :: e in agents && e.id in ids && FromAgent(a, files, e, rest))
  {
    var sources := AllSources(agents, ids, skills).value;
    if a in AddedAll(Acc({}, {}), files, sources).artifacts {
      var s, path := CollectedMade(files, sources, a);
      SourceOfAgent(agents, ids, skills, s);
      MadeFromAgent(files, s, path);
    }
  }

  lemma {:induction false} SeenAreDestinations(files: set<string>, sources: seq<Source>)
    ensures var acc := AddedAll(Acc({}, {}), files, sources); acc.seen == (set a <- acc.artifacts :: a.repoRel)
  {
    if sources != [] {
      var rest, last := sources[..|sources| - 1], sources[|sources| - 1];
      var before := AddedAll(Acc({}, {}), files, rest);
      SeenAreDestinations(files, rest);
      var free := FreeFiles(before.seen, files, last);
      assert Dests(free, last) == (set a <- Made(free, last) :: a.repoRel) by {
        forall p <- free ensures Dest(last, p) in (set a <- Made(free, last) :: a.repoRel) {
          assert Make(last, p) in Made(free, last);
        }
      }
    }
  }

  /** Some artifact of the outcome goes to this place. */
  ghost predicate Fills(acc: Acc, repoRel: string) {
    exists a <- acc.artifacts :: a.repoRel == repoRel
  }

  lemma InstalledFills(agents: seq<AgentEntry>, files: set<string>, ids: seq<string>, skills: bool, withPolicy: bool,
                       dest: string)
    requires Installed(agents, files, ids, skills, withPolicy).Ok?
    ensures var acc := Installed(agents, files, ids, skills, withPolicy).value; dest in acc.seen <==> Fills(acc, dest)
  {
    SeenAreDestinations(files, AllSources(agents, ids, skills).value);
  }

  lemma {:induction false} SourceFills(agents: seq<AgentEntry>, files: set<string>, ids: seq<string>, withPolicy: bool,
                                       id: string, s: Source, rest: string)
    requires Installed(agents, files, ids, true, withPolicy).Ok? && id in ids
    requires FindAgent(agents, id).Some? && s in SourcesOf(FindAgent(agents, id).value, true)
    requires s.subdir + "/" <= rest && "agents/host-" + id + "/" + rest in files
    ensures exists repoRel :: GoesTo(s.entry.agentDir, rest, repoRel)
              && Fills(Installed(agents, files, ids, true, withPolicy).value, repoRel)
  {
    FoundAgent(agents, id);
    var path := EmbedPrefix(id) + rest;
    assert path == "agents/host-" + id + "/" + rest;
    BelowPrefix(s, rest);
    DestOfRest(s, rest);
    EveryFileInstalled(agents, files, ids, withPolicy, id, s, path);
    InstalledFills(agents, files, ids, true, withPolicy, Dest(s, path));
  }

  lemma BelowPrefix(s: Source, rest: string)
    requires s.subdir + "/" <= rest
    ensures InDirectory(s, EmbedPrefix(s.entry.id) + rest)
  {
    var inner := s.subdir + "/";
    assert rest == inner + rest[|inner|..];
    assert EmbedPrefix(s.entry.id) + rest == SourcePrefix(s) + rest[|inner|..];
  }

  /** Every pack file below the skills directory of a chosen agent has its place filled. */
  lemma {:induction false} SkillsInstalled(agents: seq<AgentEntry>, files: set<string>, ids: seq<string>,
                                           withPolicy: bool, id: string, e: AgentEntry, rest: string)
    requires Installed(agents, files, ids, true, withPolicy).Ok? && id in ids && FindAgent(agents, id) == Some(e)
    requires e.skillsSubdir + "/" <= rest && "agents/host-" + id + "/" + rest in files
    ensures exists repoRel :: GoesTo(e.agentDir, rest, repoRel)
              && Fills(Installed(agents, files, ids, true, withPolicy).value, repoRel)
  {
    SourceFills(agents, files, ids, withPolicy, id, Source(e, e.skillsSubdir, false), rest);
  }

  /**
   So has every one below its commands directory, if the manifest gives that as a path below the agent's directory.
   */
  lemma {:induction false} CommandsInstalled(agents: seq<AgentEntry>, files: set<string>, ids: seq<string>,
                                             withPolicy: bool, id: string, e: AgentEntry, sub: string, rest: string)
    requires Installed(agents, files, ids, true, withPolicy).Ok? && id in ids && FindAgent(agents, id) == Some(e)
    requires e.commandsPath == e.agentDir + "/" + sub && sub != "" && sub[0] != '/' && sub[|sub| - 1] != '/'
    requires sub + "/" <= rest && "agents/host-" + id + "/" + rest in files
    ensures exists repoRel :: GoesTo(e.agentDir, rest, repoRel)
              && Fills(Installed(agents, files, ids, true, withPolicy).value, repoRel)
  {
    assert e.commandsPath == (e.agentDir + "/") + sub;
    assert CommandSubdir(e) == sub;
    var s := Source(e, sub, true);
    assert SourcesOf(e, true)[1] == s;
    SourceFills(agents, files, ids, withPolicy, id, s, rest);
  }

  /** The policy is installed exactly if it is asked for, is in the pack, and no agent's file goes to its place. */
  lemma PolicyExactly(agents: seq<AgentEntry>, files: set<string>, ids: seq<string>, skills: bool, withPolicy: bool)
    requires Installed(agents, files, ids, skills, withPolicy).Ok?
    ensures var artifacts := Installed(agents, files, ids, skills, withPolicy).value.artifacts;
            PolicyArtifact() in artifacts <==>
              && withPolicy && "policy/rgctl-structural.mdc" in files
              && forall a <- artifacts :: a.repoRel == ".cursor/rules/rgctl-structural.mdc" ==> a == PolicyArtifact()
  {
    var sources := AllSources(agents, ids, skills).value;
    var acc := AddedAll(Acc({}, {}), files, sources);
    SeenAreDestinations(files, sources);
    NoPolicyCollected(files, sources);
  }

  lemma {:induction false} NoPolicyCollected(files: set<string>, sources: seq<Source>)
    ensures forall a <- AddedAll(Acc({}, {}), files, sources).artifacts :: a.kind != Policy
  {
    if sources != [] {
      NoPolicyCollected(files, sources[..|sources| - 1]);
    }
  }

  lemma {:induction false} LastComponentOf(dir: string, base: string)
    requires (dir == "" || dir[|dir| - 1] == '/') && '/' !in base
    ensures LastComponent(dir + base) == base
  {
    var s := dir + base;
    if base != "" {
      var n := |base| - 1;
      assert s[|s| - 1] == base[n] && base[n] in base;
      assert s[..|s| - 1] == dir + base[..n];
      LastComponentOf(dir, base[..n]);
      assert base == base[..n] + [base[n]];
    } else {
      assert s == dir;
    }
  }

  lemma {:induction false} BeforePoint(stem: string, ext: string)
    requires '.' !in ext
    ensures BeforeLastPoint(stem + "." + ext) == stem
  {
    var name := stem + "." + ext;
    if ext != "" {
      var n := |ext| - 1;
      assert name[|name| - 1] == ext[n] && ext[n] in ext;
      assert name[..|name| - 1] == stem + "." + ext[..n];
      BeforePoint(stem, ext[..n]);
    } else {
      assert name[|name| - 1] == '.' && name[..|name| - 1] == stem;
    }
  }

  /** The workflow of a command file is its name without the extension and without the prefix `rgctl-` or `rgctl:`. */
  lemma CommandNamed(dir: string, stem: string, ext: string)
    requires (dir == "" || dir[|dir| - 1] == '/') && '/' !in stem && '/' !in ext && '.' !in ext && stem != ""
    requires stem == "." ==> ext != ""
    ensures CommandWorkflowId(dir + stem + "." + ext)
         == Some(if "rgctl-" <= stem || "rgctl:" <= stem then stem[6..] else stem)
  {
    var name := stem + "." + ext;
    assert dir + stem + "." + ext == dir + name;
    LastComponentOf(dir, name);
    BeforePoint(stem, ext);
    assert name[|stem|] == '.';
  }
}
