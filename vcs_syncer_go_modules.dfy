/** The Go-modules syncer: keeps the tags of a bare repository in step with
    the versions of one Go module. Candidate versions come from the static
    configuration and from the dependencies store; those the module proxy
    knows are materialised as tags (the newest may also move `latest`), and
    tags no longer wanted are deleted. */
module GoModules {
  import opened Results
  import opened Text
  import GoModProxy

  /** `reposource.GoDependency`, which wraps a `module.Version`. */
  type GoDependency = GoModProxy.ModuleVersion

  /** One row of the dependencies store. */
  datatype DependencyRepo = DependencyRepo(name: string, version: string)

  /** The Go coordinate functions the syncer uses but that are defined elsewhere. */
  datatype GoDependencyAPI = GoDependencyAPI(
    parseDependency: string -> Option<GoDependency>,     // reposource.ParseGoDependency
    parseFromRepoName: string -> Option<GoDependency>,   // reposource.ParseGoDependencyFromRepoName
    gitTagFromVersion: GoDependency -> string)           // (*GoDependency).GitTagFromVersion

  /** `GoModulesSyncer`: its configuration and collaborators. The store answers
      for the Go scheme, newest first. */
  datatype GoModulesSyncer = GoModulesSyncer(
    configDependencies: Option<seq<string>>,             // connection.Dependencies; None when nil
    listDependencyRepos: string -> Result<seq<DependencyRepo>, string>,
    client: GoModProxy.Client,
    api: GoDependencyAPI)

  /** The steps of materialising one version, after fetching its zip, that
      run `git` or touch the file system. */
  datatype PushStep = MkdirTemp | CommitZip | RemoteAdd | PushTags | RevParse | PushLatest

  /** What the `git` commands of one `Fetch` do: the output of `git tag`
      (None when it fails), the first failing step when materialising a
      dependency, and which `git tag -d` calls fail. */
  datatype Git = Git(
    tagOutput: Option<string>,
    failingStep: GoDependency -> Option<PushStep>,
    deleteFails: string -> bool)

  datatype PushError = TempDirFailed | ZipFailed(cause: GoModProxy.Error) | StepFailed(step: PushStep)

  datatype FetchError =
    | InvalidRepoName(path: string)
    | StoreFailed(message: string)
    | ProxyFailed(cause: GoModProxy.Error)
    | TagListFailed
    | PushFailed(dependency: GoDependency, pushError: PushError)

  /** The observable state of the bare repository: its tags and the tag whose
      commit the `latest` branch points at. */
  datatype RepoState = RepoState(tags: set<string>, latest: Option<string>)

  /** One call of `gitPushDependencyTag`. */
  datatype PushAttempt = PushAttempt(dependency: GoDependency, isLatest: bool)

  /** A bare repository on disk. `pushLog` records every materialisation it
      has been the target of. */
  class BareRepository {
    var tags: set<string>
    var latest: Option<string>
    ghost var pushLog: seq<PushAttempt>

    constructor ()
      ensures tags == {} && latest == None && pushLog == []
    {
      tags := {};
      latest := None;
      pushLog := [];
    }

    function State(): RepoState
      reads this
    {
      RepoState(tags, latest)
    }
  }

  // ---------------------------------------------------------------------------
  // Candidate versions
  // ---------------------------------------------------------------------------

  /** `dependencies`: the configured list, nothing when it is nil. */
  function Dependencies(s: GoModulesSyncer): (r: seq<string>)
    ensures s.configDependencies.None? ==> r == []
    ensures s.configDependencies.Some? ==> r == s.configDependencies.value
  {
    match s.configDependencies
    case None => []
    case Some(deps) => deps
  }

  /** The well-formed configured entries of module `mod`, in configuration order. */
  function ConfigVersions(api: GoDependencyAPI, config: seq<string>, mod: string): seq<GoDependency>
  {
    if config == [] then []
    else
      var prev := ConfigVersions(api, config[..|config| - 1], mod);
      match api.parseDependency(config[|config| - 1])
      case None => prev
      case Some(d) => if d.path == mod then prev + [d] else prev
  }

  /** The store's rows as dependencies, in store order. */
  function StoreVersions(repos: seq<DependencyRepo>): (r: seq<GoDependency>)
    ensures |r| == |repos|
    ensures forall i :: 0 <= i < |repos| ==> r[i] == GoModProxy.ModuleVersion(repos[i].name, repos[i].version)
  {
    if repos == [] then []
    else
      var last := repos[|repos| - 1];
      StoreVersions(repos[..|repos| - 1]) + [GoModProxy.ModuleVersion(last.name, last.version)]
  }

  /** `moduleVersions` as a function of its inputs. */
  function ModuleVersionsSpec(s: GoModulesSyncer, mod: string): Result<seq<GoDependency>, FetchError>
  {
    match s.listDependencyRepos(mod)
    case Err(e) => Err(StoreFailed(e))
    case Ok(repos) => Ok(ConfigVersions(s.api, Dependencies(s), mod) + StoreVersions(repos))
  }

  /** A configured entry is a candidate exactly when it parses and names `mod`. */
  lemma {:induction false} ConfigVersionsMembers(api: GoDependencyAPI, config: seq<string>, mod: string, x: GoDependency)
    ensures x in ConfigVersions(api, config, mod) <==>
            x.path == mod && exists i :: 0 <= i < |config| && api.parseDependency(config[i]) == Some(x)
  {
    if config != [] {
      var init := config[..|config| - 1];
      ConfigVersionsMembers(api, init, mod, x);
      if exists i :: 0 <= i < |config| && api.parseDependency(config[i]) == Some(x) {
        var i :| 0 <= i < |config| && api.parseDependency(config[i]) == Some(x);
        if i < |init| {
          assert init[i] == config[i];
        }
      }
      if exists i :: 0 <= i < |init| && api.parseDependency(init[i]) == Some(x) {
        var i :| 0 <= i < |init| && api.parseDependency(init[i]) == Some(x);
        assert config[i] == init[i];
      }
    }
  }

  /** Configuration order is kept: the candidates of a concatenation are the
      concatenation of the candidates. */
  lemma {:induction false} ConfigVersionsAppend(api: GoDependencyAPI, a: seq<string>, b: seq<string>, mod: string)
    ensures ConfigVersions(api, a + b, mod) == ConfigVersions(api, a, mod) + ConfigVersions(api, b, mod)
  {
    if b == [] {
      assert a + b == a;
    } else {
      var b' := b[..|b| - 1];
      assert (a + b)[..|a + b| - 1] == a + b';
      assert (a + b)[|a + b| - 1] == b[|b| - 1];
      ConfigVersionsAppend(api, a, b', mod);
    }
  }

  /** `moduleVersions`: the configured candidates, then every store row. */
  method ModuleVersions(s: GoModulesSyncer, mod: string) returns (r: Result<seq<GoDependency>, FetchError>)
    ensures r == ModuleVersionsSpec(s, mod)
  {
    var versions: seq<GoDependency> := [];
    var config := Dependencies(s);
    for i := 0 to |config|
      invariant versions == ConfigVersions(s.api, config[..i], mod)
    {
      assert config[..i + 1][..i] == config[..i];
      var dep := s.api.parseDependency(config[i]);
      if dep.None? {
        continue;
      }
      if dep.value.path == mod {
        versions := versions + [dep.value];
      }
    }
    assert config[..|config|] == config;
    var depRepos := s.listDependencyRepos(mod);
    if depRepos.Err? {
      return Err(StoreFailed(depRepos.error));
    }
    var repos := depRepos.value;
    ghost var configured := versions;
    for i := 0 to |repos|
      invariant versions == configured + StoreVersions(repos[..i])
    {
      assert repos[..i + 1][..i] == repos[..i];
      versions := versions + [GoModProxy.ModuleVersion(repos[i].name, repos[i].version)];
    }
    assert repos[..|repos|] == repos;
    return Ok(versions);
  }

  // ---------------------------------------------------------------------------
  // Filtering through the module proxy
  // ---------------------------------------------------------------------------

  /** Whether the proxy's answer for `d` lets the filter go on. */
  predicate Tolerated(c: GoModProxy.Client, d: GoDependency)
  {
    var r := GoModProxy.GetVersionSpec(c, d.path, d.version);
    r.Ok? || GoModProxy.IsNotFound(r.error)
  }

  /** The filter of `Fetch`: keeps the candidates the proxy knows, drops the
      NotFound ones, and stops at the first other error. */
  function Cloneable(c: GoModProxy.Client, deps: seq<GoDependency>): Result<seq<GoDependency>, GoModProxy.Error>
  {
    if deps == [] then Ok([])
    else
      match Cloneable(c, deps[..|deps| - 1])
      case Err(e) => Err(e)
      case Ok(kept) =>
        var d := deps[|deps| - 1];
        match GoModProxy.GetVersionSpec(c, d.path, d.version)
        case Ok(_) => Ok(kept + [d])
        case Err(e) => if GoModProxy.IsNotFound(e) then Ok(kept) else Err(e)
  }

  /** The filter succeeds exactly when every answer is a success or NotFound. */
  lemma {:induction false} CloneableOkIff(c: GoModProxy.Client, deps: seq<GoDependency>)
    ensures Cloneable(c, deps).Ok? <==> forall i :: 0 <= i < |deps| ==> Tolerated(c, deps[i])
  {
    if deps != [] {
      var init := deps[..|deps| - 1];
      CloneableOkIff(c, init);
      assert forall i :: 0 <= i < |init| ==> init[i] == deps[i];
    }
  }

  /** The filter keeps exactly the candidates whose `GetVersion` succeeded. */
  lemma {:induction false} CloneableMembers(c: GoModProxy.Client, deps: seq<GoDependency>, x: GoDependency)
    requires Cloneable(c, deps).Ok?
    ensures x in Cloneable(c, deps).value <==> x in deps && GoModProxy.GetVersionSpec(c, x.path, x.version).Ok?
  {
    if deps != [] {
      var init := deps[..|deps| - 1];
      CloneableMembers(c, init, x);
      assert deps == init + [deps[|deps| - 1]];
    }
  }

  /** The filter keeps the relative order: filtering a concatenation is
      filtering each part, with the first error winning. */
  lemma {:induction false} CloneableAppend(c: GoModProxy.Client, a: seq<GoDependency>, b: seq<GoDependency>)
    ensures Cloneable(c, a + b) ==
            match Cloneable(c, a)
            case Err(e) => Err(e)
            case Ok(x) =>
              match Cloneable(c, b)
              case Err(e) => Err(e)
              case Ok(y) => Ok(x + y)
  {
    if b == [] {
      assert a + b == a;
      if Cloneable(c, a).Ok? {
        assert Cloneable(c, a).value + [] == Cloneable(c, a).value;
      }
    } else {
      var b' := b[..|b| - 1];
      assert (a + b)[..|a + b| - 1] == a + b';
      assert (a + b)[|a + b| - 1] == b[|b| - 1];
      CloneableAppend(c, a, b');
      if Cloneable(c, a).Ok? && Cloneable(c, b').Ok? {
        assert Cloneable(c, a).value + Cloneable(c, b').value + [b[|b| - 1]] ==
               Cloneable(c, a).value + (Cloneable(c, b').value + [b[|b| - 1]]);
      }
    }
  }

  /** An error of the filter is the first answer that is neither a success
      nor NotFound. */
  lemma {:induction false} CloneableErrIsFirstFatal(c: GoModProxy.Client, deps: seq<GoDependency>)
    requires Cloneable(c, deps).Err?
    ensures exists k :: 0 <= k < |deps| &&
              GoModProxy.GetVersionSpec(c, deps[k].path, deps[k].version) == Err(Cloneable(c, deps).error) &&
              !GoModProxy.IsNotFound(Cloneable(c, deps).error) &&
              Cloneable(c, deps[..k]).Ok?
  {
    var init := deps[..|deps| - 1];
    if Cloneable(c, init).Err? {
      CloneableErrIsFirstFatal(c, init);
      var k :| 0 <= k < |init| &&
               GoModProxy.GetVersionSpec(c, init[k].path, init[k].version) == Err(Cloneable(c, init).error) &&
               !GoModProxy.IsNotFound(Cloneable(c, init).error) &&
               Cloneable(c, init[..k]).Ok?;
      assert init[..k] == deps[..k] && init[k] == deps[k];
    } else {
      assert deps[..|deps| - 1] == init;
    }
  }

  /** Once a prefix fails, the whole filter fails the same way. */
  lemma {:induction false} CloneableErrorSticks(c: GoModProxy.Client, deps: seq<GoDependency>, k: nat)
    requires k <= |deps| && Cloneable(c, deps[..k]).Err?
    ensures Cloneable(c, deps) == Cloneable(c, deps[..k])
  {
    if k < |deps| {
      var init := deps[..|deps| - 1];
      assert init[..k] == deps[..k];
      CloneableErrorSticks(c, init, k);
    } else {
      assert deps[..k] == deps;
    }
  }

  /** The in-place filter `cloneable := dependencies[:0]`: the kept
      candidates are moved to the front of the array. */
  method FilterCloneable(c: GoModProxy.Client, a: array<GoDependency>) returns (n: nat, err: Option<GoModProxy.Error>)
    modifies a
    ensures n <= a.Length
    ensures Cloneable(c, old(a[..])) == if err.Some? then Err(err.value) else Ok(a[..n])
  {
    ghost var deps := a[..];
    n := 0;
    var i := 0;
    while i < a.Length
      invariant n <= i <= a.Length
      invariant forall j :: i <= j < a.Length ==> a[j] == deps[j]
      invariant Cloneable(c, deps[..i]) == Ok(a[..n])
    {
      var dep := a[i];
      var v := GoModProxy.GetVersion(c, dep.path, dep.version);
      CloneableStep(c, deps, i, a[..n], v);
      if v.Err? {
        if GoModProxy.IsNotFound(v.error) {
          i := i + 1;
          continue;
        }
        CloneableErrorSticks(c, deps, i + 1);
        return n, Some(v.error);
      }
      ghost var kept := a[..n];
      a[n] := dep;
      assert a[..n + 1] == kept + [dep];
      n := n + 1;
      i := i + 1;
    }
    assert deps[..a.Length] == deps;
    err := None;
  }

  /** One step of the filter, in terms of the proxy's answer `v` for the next candidate. */
  lemma CloneableStep(c: GoModProxy.Client, deps: seq<GoDependency>, i: nat, kept: seq<GoDependency>, v: Result<GoModProxy.ModuleVersion, GoModProxy.Error>)
    requires i < |deps| && Cloneable(c, deps[..i]) == Ok(kept)
    requires v == GoModProxy.GetVersionSpec(c, deps[i].path, deps[i].version)
    ensures Cloneable(c, deps[..i + 1]) ==
              if v.Ok? then Ok(kept + [deps[i]]) else if GoModProxy.IsNotFound(v.error) then Ok(kept) else Err(v.error)
  {
    assert deps[..i + 1][..i] == deps[..i];
  }

  // ---------------------------------------------------------------------------
  // Tags
  // ---------------------------------------------------------------------------

  /** The tags named by `git tag` output: its non-empty lines. */
  function Have(out: string): set<string>
  {
    set line | line in Split(out, '\n') && line != ""
  }

  /** The tags `Fetch` wants: one per kept candidate. */
  function Wanted(api: GoDependencyAPI, deps: seq<GoDependency>): set<string>
  {
    set d | d in deps :: api.gitTagFromVersion(d)
  }

  /** The tags a loop over `have` actually deletes: the unwanted ones whose
      `git tag -d` succeeds. */
  function Deleted(git: Git, have: set<string>, wanted: set<string>): set<string>
  {
    set t | t in have && t !in wanted && !git.deleteFails(t)
  }

  /** `git tag` lists each tag on a line of its own. */
  function Listing(tags: seq<string>): string
  {
    if tags == [] then "" else tags[0] + "\n" + Listing(tags[1..])
  }

  /** Reading back a listing of non-empty, newline-free tag names gives
      exactly those names. */
  lemma {:induction false} HaveOfListing(tags: seq<string>)
    requires forall i :: 0 <= i < |tags| ==> tags[i] != "" && '\n' !in tags[i]
    ensures Have(Listing(tags)) == set t | t in tags
  {
    SplitListing(tags);
  }

  lemma {:induction false} SplitListing(tags: seq<string>)
    requires forall i :: 0 <= i < |tags| ==> '\n' !in tags[i]
    ensures Split(Listing(tags), '\n') == tags + [""]
  {
    if tags != [] {
      SplitListing(tags[1..]);
      SplitAppend(tags[0], Listing(tags[1..]), '\n');
      assert tags[0] + "\n" + Listing(tags[1..]) == tags[0] + ['\n'] + Listing(tags[1..]);
      assert tags == [tags[0]] + tags[1..];
    }
  }

  /** The loop that fills the `tags` map from the `git tag` output. */
  method ReadTags(out: string) returns (tags: set<string>)
    ensures tags == Have(out)
  {
    var lines := Split(out, '\n');
    tags := {};
    for i := 0 to |lines|
      invariant tags == set line | line in lines[..i] && line != ""
    {
      assert lines[..i + 1] == lines[..i] + [lines[i]];
      if |lines[i]| == 0 {
        continue;
      }
      tags := tags + {lines[i]};
    }
    assert lines[..|lines|] == lines;
  }

  /** The loop that fills `dependencyTags`. */
  method DependencyTags(api: GoDependencyAPI, deps: seq<GoDependency>) returns (tags: set<string>)
    ensures tags == Wanted(api, deps)
  {
    tags := {};
    for i := 0 to |deps|
      invariant tags == Wanted(api, deps[..i])
    {
      assert deps[..i + 1] == deps[..i] + [deps[i]];
      tags := tags + {api.gitTagFromVersion(deps[i])};
    }
    assert deps[..|deps|] == deps;
  }

  // ---------------------------------------------------------------------------
  // Materialising one version
  // ---------------------------------------------------------------------------

  datatype PushResult = PushResult(state: RepoState, err: Option<PushError>)

  /** Where the archive of each version comes from. */
  type ZipSource = GoDependency -> Result<string, GoModProxy.Error>

  /** The module proxy as a zip source. */
  function ProxyZips(c: GoModProxy.Client): (zips: ZipSource)
    ensures ZipsFrom(c, zips)
  {
    (d: GoDependency) => GoModProxy.GetZipSpec(c, d.path, d.version)
  }

  ghost predicate ZipsFrom(c: GoModProxy.Client, zips: ZipSource)
  {
    forall d :: zips(d) == GoModProxy.GetZipSpec(c, d.path, d.version)
  }

  /** `gitPushDependencyTag` on the repository state: once the tags are pushed
      the tag exists; only for the latest version is `latest` then moved to it. */
  function PushDependencyTag(s: GoModulesSyncer, git: Git, zip: Result<string, GoModProxy.Error>, st: RepoState, d: GoDependency, isLatest: bool): PushResult
  {
    var fail := git.failingStep(d);
    if fail == Some(MkdirTemp) then PushResult(st, Some(TempDirFailed))
    else
      match zip
      case Err(e) => PushResult(st, Some(ZipFailed(e)))
      case Ok(_) =>
        if fail == Some(CommitZip) || fail == Some(RemoteAdd) || fail == Some(PushTags) then
          PushResult(st, Some(StepFailed(fail.value)))
        else
          var tag := s.api.gitTagFromVersion(d);
          var pushed := st.(tags := st.tags + {tag});
          if !isLatest then PushResult(pushed, None)
          else if fail.Some? then PushResult(pushed, Some(StepFailed(fail.value)))
          else PushResult(pushed.(latest := Some(tag)), None)
  }

  /** Whether materialising `d` goes through. */
  predicate PushSucceeds(git: Git, zip: Result<string, GoModProxy.Error>, d: GoDependency, isLatest: bool)
  {
    && zip.Ok?
    && (git.failingStep(d).None? || (!isLatest && git.failingStep(d).value in {RevParse, PushLatest}))
  }

  /** What one materialisation does to the repository: a success adds the tag
      (and moves `latest` for the latest version); a failure never removes a tag. */
  lemma PushDependencyTagEffect(s: GoModulesSyncer, git: Git, zip: Result<string, GoModProxy.Error>, st: RepoState, d: GoDependency, isLatest: bool)
    ensures var r := PushDependencyTag(s, git, zip, st, d, isLatest);
            && (r.err.None? <==> PushSucceeds(git, zip, d, isLatest))
            && (r.err.None? ==> r.state.tags == st.tags + {s.api.gitTagFromVersion(d)})
            && (r.err.None? ==> r.state.latest == if isLatest then Some(s.api.gitTagFromVersion(d)) else st.latest)
            && st.tags <= r.state.tags
            && (!isLatest ==> r.state.latest == st.latest)
  {
    match git.failingStep(d)
    case None =>
    case Some(step) =>
      if step != MkdirTemp && zip.Ok? {
        assert step in {RevParse, PushLatest} <==> !(step == CommitZip || step == RemoteAdd || step == PushTags);
      }
  }

  /** `gitPushDependencyTag`: materialise one version in a temporary
      repository and push it into the bare repository. */
  method GitPushDependencyTag(s: GoModulesSyncer, git: Git, ghost zips: ZipSource, repo: BareRepository, d: GoDependency, isLatest: bool)
    returns (err: Option<PushError>)
    requires zips(d) == GoModProxy.GetZipSpec(s.client, d.path, d.version)
    modifies repo
    ensures PushResult(repo.State(), err) == PushDependencyTag(s, git, zips(d), old(repo.State()), d, isLatest)
    ensures repo.pushLog == old(repo.pushLog) + [PushAttempt(d, isLatest)]
  {
    repo.pushLog := repo.pushLog + [PushAttempt(d, isLatest)];
    var fail := git.failingStep(d);
    if fail == Some(MkdirTemp) {
      return Some(TempDirFailed);
    }
    var zipBytes := GoModProxy.GetZip(s.client, d.path, d.version);
    assert zipBytes == zips(d);
    if zipBytes.Err? {
      return Some(ZipFailed(zipBytes.error));
    }
    // commitZip, `git remote add`, then `git push --no-verify --force origin --tags`
    if fail == Some(CommitZip) || fail == Some(RemoteAdd) || fail == Some(PushTags) {
      return Some(StepFailed(fail.value));
    }
    var tag := s.api.gitTagFromVersion(d);
    repo.tags := repo.tags + {tag};
    if isLatest {
      // `git rev-parse --abbrev-ref HEAD`, then push the default branch to `latest`
      if fail.Some? {
        return Some(StepFailed(fail.value));
      }
      repo.latest := Some(tag);
    }
    return None;
  }

  // ---------------------------------------------------------------------------
  // The push loop
  // ---------------------------------------------------------------------------

  /** The materialisations the push loop attempts over `deps[..n]`: every
      candidate whose tag is not in the initially read set, duplicates
      included; only index 0 is the latest version. */
  function PushPlan(api: GoDependencyAPI, deps: seq<GoDependency>, have: set<string>, n: nat): seq<PushAttempt>
    requires n <= |deps|
  {
    if n == 0 then []
    else
      PushPlan(api, deps, have, n - 1) +
      (if api.gitTagFromVersion(deps[n - 1]) in have then [] else [PushAttempt(deps[n - 1], n - 1 == 0)])
  }

  /** The tags a sequence of materialisations creates. */
  function PushedTags(api: GoDependencyAPI, plan: seq<PushAttempt>): set<string>
  {
    set a | a in plan :: api.gitTagFromVersion(a.dependency)
  }

  datatype PushesResult = PushesResult(state: RepoState, err: Option<FetchError>, attempted: seq<PushAttempt>)

  /** Running a sequence of materialisations, stopping at the first failure. */
  function RunPushes(s: GoModulesSyncer, git: Git, zips: ZipSource, st: RepoState, plan: seq<PushAttempt>): PushesResult
  {
    if plan == [] then PushesResult(st, None, [])
    else
      var prev := RunPushes(s, git, zips, st, plan[..|plan| - 1]);
      if prev.err.Some? then prev
      else
        var a := plan[|plan| - 1];
        var r := PushDependencyTag(s, git, zips(a.dependency), prev.state, a.dependency, a.isLatest);
        PushesResult(r.state, if r.err.Some? then Some(PushFailed(a.dependency, r.err.value)) else None, prev.attempted + [a])
  }

  lemma {:induction false} RunPushesErrorSticks(s: GoModulesSyncer, git: Git, zips: ZipSource, st: RepoState, p: seq<PushAttempt>, q: seq<PushAttempt>)
    requires RunPushes(s, git, zips, st, p).err.Some?
    ensures RunPushes(s, git, zips, st, p + q) == RunPushes(s, git, zips, st, p)
  {
    if q != [] {
      var q' := q[..|q| - 1];
      assert (p + q)[..|p + q| - 1] == p + q';
      RunPushesErrorSticks(s, git, zips, st, p, q');
    } else {
      assert p + q == p;
    }
  }

  lemma {:induction false} PushPlanExtends(api: GoDependencyAPI, deps: seq<GoDependency>, have: set<string>, n: nat, m: nat)
    requires n <= m <= |deps|
    ensures exists q :: PushPlan(api, deps, have, m) == PushPlan(api, deps, have, n) + q
  {
    if n < m {
      PushPlanExtends(api, deps, have, n, m - 1);
      var q :| PushPlan(api, deps, have, m - 1) == PushPlan(api, deps, have, n) + q;
      var extra := if api.gitTagFromVersion(deps[m - 1]) in have then [] else [PushAttempt(deps[m - 1], m - 1 == 0)];
      assert PushPlan(api, deps, have, m) == PushPlan(api, deps, have, n) + (q + extra);
    } else {
      assert PushPlan(api, deps, have, m) == PushPlan(api, deps, have, n) + [];
    }
  }

  /** Every planned attempt is for a kept candidate whose tag was missing. */
  lemma {:induction false} PushPlanOnlyMissing(api: GoDependencyAPI, deps: seq<GoDependency>, have: set<string>, n: nat)
    requires n <= |deps|
    ensures forall a :: a in PushPlan(api, deps, have, n) ==> a.dependency in deps && api.gitTagFromVersion(a.dependency) !in have
  {
    if n > 0 {
      PushPlanOnlyMissing(api, deps, have, n - 1);
    }
  }

  /** Every kept candidate whose tag was missing is attempted, with `isLatest`
      exactly for index 0. */
  lemma {:induction false} PushPlanCoversMissing(api: GoDependencyAPI, deps: seq<GoDependency>, have: set<string>, n: nat)
    requires n <= |deps|
    ensures forall i :: 0 <= i < n && api.gitTagFromVersion(deps[i]) !in have ==>
              PushAttempt(deps[i], i == 0) in PushPlan(api, deps, have, n)
  {
    if n > 0 {
      PushPlanCoversMissing(api, deps, have, n - 1);
    }
  }

  /** Only the first attempt can be the latest version, and then it is for `deps[0]`. */
  lemma {:induction false} PushPlanLatestOnlyFirst(api: GoDependencyAPI, deps: seq<GoDependency>, have: set<string>, n: nat)
    requires n <= |deps|
    ensures forall k :: 0 <= k < |PushPlan(api, deps, have, n)| && PushPlan(api, deps, have, n)[k].isLatest ==>
              k == 0 && PushPlan(api, deps, have, n)[k].dependency == deps[0]
  {
    if n > 0 {
      PushPlanLatestOnlyFirst(api, deps, have, n - 1);
      if n - 1 > 0 {
        PushPlanLength(api, deps, have, n - 1);
      }
    }
  }

  lemma {:induction false} PushPlanLength(api: GoDependencyAPI, deps: seq<GoDependency>, have: set<string>, n: nat)
    requires 0 < n <= |deps|
    ensures |PushPlan(api, deps, have, n)| <= n
    ensures api.gitTagFromVersion(deps[0]) !in have ==> |PushPlan(api, deps, have, n)| >= 1
  {
    if n > 1 {
      PushPlanLength(api, deps, have, n - 1);
    }
  }

  /** Materialisations that each go through make every planned attempt go through. */
  lemma {:induction false} PushPlanSucceeds(s: GoModulesSyncer, git: Git, zips: ZipSource, deps: seq<GoDependency>, have: set<string>, n: nat)
    requires n <= |deps|
    requires forall i :: 0 <= i < n ==> PushSucceeds(git, zips(deps[i]), deps[i], i == 0)
    ensures forall a :: a in PushPlan(s.api, deps, have, n) ==> PushSucceeds(git, zips(a.dependency), a.dependency, a.isLatest)
  {
    if n > 0 {
      PushPlanSucceeds(s, git, zips, deps, have, n - 1);
    }
  }

  lemma PushedTagsAppend(api: GoDependencyAPI, p: seq<PushAttempt>, q: seq<PushAttempt>)
    ensures PushedTags(api, p + q) == PushedTags(api, p) + PushedTags(api, q)
  {
    forall t | t in PushedTags(api, p + q) ensures t in PushedTags(api, p) + PushedTags(api, q) {
      var a :| a in p + q && api.gitTagFromVersion(a.dependency) == t;
    }
  }

  lemma WantedAppend(api: GoDependencyAPI, a: seq<GoDependency>, b: seq<GoDependency>)
    ensures Wanted(api, a + b) == Wanted(api, a) + Wanted(api, b)
  {
    forall t | t in Wanted(api, a + b) ensures t in Wanted(api, a) + Wanted(api, b) {
      var d :| d in a + b && api.gitTagFromVersion(d) == t;
    }
  }

  /** The planned attempts create exactly the wanted tags that were missing. */
  lemma {:induction false} PushPlanTags(api: GoDependencyAPI, deps: seq<GoDependency>, have: set<string>, n: nat)
    requires n <= |deps|
    ensures PushedTags(api, PushPlan(api, deps, have, n)) == Wanted(api, deps[..n]) - have
  {
    if n > 0 {
      PushPlanTags(api, deps, have, n - 1);
      var p := PushPlan(api, deps, have, n - 1);
      var w, t := Wanted(api, deps[..n - 1]), api.gitTagFromVersion(deps[n - 1]);
      WantedSnoc(api, deps, n);
      if t !in have {
        var a := PushAttempt(deps[n - 1], n - 1 == 0);
        assert PushPlan(api, deps, have, n) == p + [a];
        PushedTagsAppend(api, p, [a]);
        PushedTagsSingleton(api, a);
        assert (w - have) + {t} == (w + {t}) - have;
      } else {
        assert PushPlan(api, deps, have, n) == p + [];
        assert w - have == (w + {t}) - have;
      }
    } else {
      assert deps[..0] == [];
    }
  }

  lemma WantedSnoc(api: GoDependencyAPI, deps: seq<GoDependency>, n: nat)
    requires 0 < n <= |deps|
    ensures Wanted(api, deps[..n]) == Wanted(api, deps[..n - 1]) + {api.gitTagFromVersion(deps[n - 1])}
  {
    assert deps[..n] == deps[..n - 1] + [deps[n - 1]];
    WantedAppend(api, deps[..n - 1], [deps[n - 1]]);
    assert Wanted(api, [deps[n - 1]]) == {api.gitTagFromVersion(deps[n - 1])} by {
      assert deps[n - 1] in [deps[n - 1]];
    }
  }


  /** With every tag present, nothing is attempted. */
  lemma {:induction false} PushPlanNothingMissing(api: GoDependencyAPI, deps: seq<GoDependency>, have: set<string>, n: nat)
    requires n <= |deps|
    requires forall i :: 0 <= i < n ==> api.gitTagFromVersion(deps[i]) in have
    ensures PushPlan(api, deps, have, n) == []
  {
    if n > 0 {
      PushPlanNothingMissing(api, deps, have, n - 1);
    }
  }

  /** With none of the tags present, every entry is attempted in order,
      a duplicate entry as often as it occurs. */
  lemma {:induction false} PushPlanAllMissing(api: GoDependencyAPI, deps: seq<GoDependency>, have: set<string>, n: nat)
    requires n <= |deps|
    requires forall i :: 0 <= i < n ==> api.gitTagFromVersion(deps[i]) !in have
    ensures |PushPlan(api, deps, have, n)| == n
    ensures forall k :: 0 <= k < n ==> PushPlan(api, deps, have, n)[k] == PushAttempt(deps[k], k == 0)
  {
    if n > 0 {
      PushPlanAllMissing(api, deps, have, n - 1);
    }
  }

  /** Pushes never remove a tag, and their only error is a push failure. */
  lemma {:induction false} RunPushesKeepsTags(s: GoModulesSyncer, git: Git, zips: ZipSource, st: RepoState, plan: seq<PushAttempt>)
    ensures st.tags <= RunPushes(s, git, zips, st, plan).state.tags
    ensures RunPushes(s, git, zips, st, plan).err.Some? ==> RunPushes(s, git, zips, st, plan).err.value.PushFailed?
  {
    if plan != [] {
      var init := plan[..|plan| - 1];
      var last := plan[|plan| - 1];
      RunPushesKeepsTags(s, git, zips, st, init);
      PushDependencyTagEffect(s, git, zips(last.dependency), RunPushes(s, git, zips, st, init).state, last.dependency, last.isLatest);
    }
  }

  /** Without a failure, pushes add exactly the planned tags and attempt the
      whole plan. */
  lemma {:induction false} RunPushesSuccess(s: GoModulesSyncer, git: Git, zips: ZipSource, st: RepoState, plan: seq<PushAttempt>)
    requires RunPushes(s, git, zips, st, plan).err.None?
    ensures RunPushes(s, git, zips, st, plan).state.tags == st.tags + PushedTags(s.api, plan)
    ensures RunPushes(s, git, zips, st, plan).attempted == plan
  {
    if plan != [] {
      var init := plan[..|plan| - 1];
      var last := plan[|plan| - 1];
      var prev := RunPushes(s, git, zips, st, init);
      var r := PushDependencyTag(s, git, zips(last.dependency), prev.state, last.dependency, last.isLatest);
      assert prev.err.None? && r.err.None?;
      RunPushesSuccess(s, git, zips, st, init);
      PushSuccessTags(s, git, zips(last.dependency), prev.state, last.dependency, last.isLatest);
      SnocSplit(plan);
      PushedTagsAppend(s.api, init, [last]);
      PushedTagsSingleton(s.api, last);
    }
  }

  /** A failure within the first `n` candidates is the outcome of the whole loop. */
  lemma PushPlanStops(s: GoModulesSyncer, git: Git, zips: ZipSource, st: RepoState, deps: seq<GoDependency>, have: set<string>, n: nat)
    requires n <= |deps|
    requires RunPushes(s, git, zips, st, PushPlan(s.api, deps, have, n)).err.Some?
    ensures RunPushes(s, git, zips, st, PushPlan(s.api, deps, have, |deps|)) == RunPushes(s, git, zips, st, PushPlan(s.api, deps, have, n))
  {
    PushPlanExtends(s.api, deps, have, n, |deps|);
    var q :| PushPlan(s.api, deps, have, |deps|) == PushPlan(s.api, deps, have, n) + q;
    RunPushesErrorSticks(s, git, zips, st, PushPlan(s.api, deps, have, n), q);
  }

  /** One more attempt after a run without failure. */
  lemma RunPushesSnoc(s: GoModulesSyncer, git: Git, zips: ZipSource, st: RepoState, plan: seq<PushAttempt>, a: PushAttempt, r: PushResult)
    requires RunPushes(s, git, zips, st, plan).err.None?
    requires r == PushDependencyTag(s, git, zips(a.dependency), RunPushes(s, git, zips, st, plan).state, a.dependency, a.isLatest)
    ensures RunPushes(s, git, zips, st, plan + [a]) ==
              PushesResult(r.state, if r.err.Some? then Some(PushFailed(a.dependency, r.err.value)) else None,
                           RunPushes(s, git, zips, st, plan).attempted + [a])
  {
    assert (plan + [a])[..|plan|] == plan;
  }

  lemma PushedTagsSingleton(api: GoDependencyAPI, a: PushAttempt)
    ensures PushedTags(api, [a]) == {api.gitTagFromVersion(a.dependency)}
  {
    assert a in [a];
  }

  lemma AppendAssociative<T>(a: seq<T>, b: seq<T>, c: seq<T>)
    ensures a + b + c == a + (b + c)
  {
  }

  lemma SnocSplit<T>(s: seq<T>)
    requires s != []
    ensures s == s[..|s| - 1] + [s[|s| - 1]]
  {
  }

  lemma PushSuccessTags(s: GoModulesSyncer, git: Git, zip: Result<string, GoModProxy.Error>, st: RepoState, d: GoDependency, isLatest: bool)
    requires PushDependencyTag(s, git, zip, st, d, isLatest).err.None?
    ensures PushDependencyTag(s, git, zip, st, d, isLatest).state.tags == st.tags + {s.api.gitTagFromVersion(d)}
  {
  }

  /** The pushes all go through exactly when every planned materialisation
      does. */
  lemma {:induction false} RunPushesOkIff(s: GoModulesSyncer, git: Git, zips: ZipSource, st: RepoState, plan: seq<PushAttempt>)
    ensures RunPushes(s, git, zips, st, plan).err.None? <==> forall a :: a in plan ==> PushSucceeds(git, zips(a.dependency), a.dependency, a.isLatest)
  {
    if plan != [] {
      var init := plan[..|plan| - 1];
      var last := plan[|plan| - 1];
      RunPushesOkIff(s, git, zips, st, init);
      PushDependencyTagEffect(s, git, zips(last.dependency), RunPushes(s, git, zips, st, init).state, last.dependency, last.isLatest);
      assert plan == init + [last];
    }
  }

  /** Only an attempt flagged latest moves `latest`. */
  lemma {:induction false} RunPushesLatest(s: GoModulesSyncer, git: Git, zips: ZipSource, st: RepoState, plan: seq<PushAttempt>)
    requires forall k :: 1 <= k < |plan| ==> !plan[k].isLatest
    requires RunPushes(s, git, zips, st, plan).err.None?
    ensures RunPushes(s, git, zips, st, plan).state.latest ==
            if plan != [] && plan[0].isLatest then Some(s.api.gitTagFromVersion(plan[0].dependency)) else st.latest
  {
    if plan != [] {
      var init := plan[..|plan| - 1];
      var last := plan[|plan| - 1];
      var prev := RunPushes(s, git, zips, st, init);
      PushDependencyTagEffect(s, git, zips(last.dependency), prev.state, last.dependency, last.isLatest);
      if |plan| > 1 {
        RunPushesLatest(s, git, zips, st, init);
        assert init[0] == plan[0];
      }
    }
  }

  // ---------------------------------------------------------------------------
  // Fetch
  // ---------------------------------------------------------------------------

  /** The outcome of one `Fetch`: the new repository state, the error
      returned, and the materialisations attempted. */
  datatype FetchRun = FetchRun(state: RepoState, err: Option<FetchError>, pushes: seq<PushAttempt>)

  /** `Fetch` as a function of its inputs and the repository's state. */
  function FetchSpec(s: GoModulesSyncer, git: Git, remotePath: string, st: RepoState): FetchRun
  {
    match s.api.parseFromRepoName(remotePath)
    case None => FetchRun(st, Some(InvalidRepoName(remotePath)), [])
    case Some(dep) =>
      match ModuleVersionsSpec(s, dep.path)
      case Err(e) => FetchRun(st, Some(e), [])
      case Ok(deps) =>
        match Cloneable(s.client, deps)
        case Err(e) => FetchRun(st, Some(ProxyFailed(e)), [])
        case Ok(cloneable) =>
          match git.tagOutput
          case None => FetchRun(st, Some(TagListFailed), [])
          case Some(out) =>
            var have := Have(out);
            var pushed := RunPushes(s, git, ProxyZips(s.client), st, PushPlan(s.api, cloneable, have, |cloneable|));
            if pushed.err.Some? then FetchRun(pushed.state, pushed.err, pushed.attempted)
            else
              var deleted := Deleted(git, have, Wanted(s.api, cloneable));
              FetchRun(pushed.state.(tags := pushed.state.tags - deleted), None, pushed.attempted)
  }

  /** `Fetch`: adds tags for new versions and removes tags of versions no
      longer wanted. */
  method Fetch(s: GoModulesSyncer, git: Git, remotePath: string, repo: BareRepository) returns (err: Option<FetchError>)
    modifies repo
    ensures var run := FetchSpec(s, git, remotePath, old(repo.State()));
            repo.State() == run.state && err == run.err && repo.pushLog == old(repo.pushLog) + run.pushes
  {
    var dep := s.api.parseFromRepoName(remotePath);
    if dep.None? {
      return Some(InvalidRepoName(remotePath));
    }
    var versions := ModuleVersions(s, dep.value.path);
    if versions.Err? {
      return Some(versions.error);
    }
    var candidates := versions.value;
    var a := new GoDependency[|candidates|](i requires 0 <= i < |candidates| => candidates[i]);
    assert a[..] == candidates;
    var n, filterErr := FilterCloneable(s.client, a);
    if filterErr.Some? {
      return Some(ProxyFailed(filterErr.value));
    }
    var dependencies := a[..n];

    if git.tagOutput.None? {
      return Some(TagListFailed);
    }
    var tags := ReadTags(git.tagOutput.value);

    err := PushMissing(s, git, ProxyZips(s.client), repo, dependencies, tags);
    if err.Some? {
      return;
    }
    var dependencyTags := DependencyTags(s.api, dependencies);
    DeleteUnwanted(git, repo, tags, dependencyTags);
    return None;
  }

  /** The push loop of `Fetch`: materialise every candidate whose tag is not
      in `tags`, stopping at the first failure. */
  method PushMissing(s: GoModulesSyncer, git: Git, ghost zips: ZipSource, repo: BareRepository, dependencies: seq<GoDependency>, tags: set<string>)
    returns (err: Option<FetchError>)
    requires ZipsFrom(s.client, zips)
    modifies repo
    ensures var r := RunPushes(s, git, zips, old(repo.State()), PushPlan(s.api, dependencies, tags, |dependencies|));
            repo.State() == r.state && err == r.err && repo.pushLog == old(repo.pushLog) + r.attempted
  {
    ghost var st0, log0 := repo.State(), repo.pushLog;
    for i := 0 to |dependencies|
      invariant PushedUpTo(s, git, zips, repo, dependencies, tags, st0, log0, i)
    {
      if s.api.gitTagFromVersion(dependencies[i]) in tags {
        PushPlanSkip(s.api, dependencies, tags, i);
        continue;
      }
      err := PushOne(s, git, zips, repo, dependencies, tags, st0, log0, i);
      if err.Some? {
        return;
      }
    }
    err := None;
  }

  /** The push loop has handled the first `i` candidates without a failure. */
  ghost predicate PushedUpTo(s: GoModulesSyncer, git: Git, zips: ZipSource, repo: BareRepository, deps: seq<GoDependency>, tags: set<string>,
                             st0: RepoState, log0: seq<PushAttempt>, i: nat)
    reads repo
    requires i <= |deps|
  {
    PushedUpToState(s, git, zips, deps, tags, st0, log0, i, repo.State(), repo.pushLog)
  }

  /** `PushedUpTo` on a repository state and push log. */
  ghost predicate PushedUpToState(s: GoModulesSyncer, git: Git, zips: ZipSource, deps: seq<GoDependency>, tags: set<string>,
                                  st0: RepoState, log0: seq<PushAttempt>, i: nat, st: RepoState, log: seq<PushAttempt>)
    requires i <= |deps|
  {
    var r := RunPushes(s, git, zips, st0, PushPlan(s.api, deps, tags, i));
    r.err.None? && st == r.state && log == log0 + r.attempted
  }

  lemma PushPlanSkip(api: GoDependencyAPI, deps: seq<GoDependency>, have: set<string>, i: nat)
    requires i < |deps| && api.gitTagFromVersion(deps[i]) in have
    ensures PushPlan(api, deps, have, i + 1) == PushPlan(api, deps, have, i)
  {
    assert PushPlan(api, deps, have, i + 1) == PushPlan(api, deps, have, i) + [];
  }

  /** One iteration of the push loop for a candidate whose tag is missing:
      materialise it. */
  method PushOne(s: GoModulesSyncer, git: Git, ghost zips: ZipSource, repo: BareRepository, dependencies: seq<GoDependency>, tags: set<string>,
                 ghost st0: RepoState, ghost log0: seq<PushAttempt>, i: nat)
    returns (err: Option<FetchError>)
    requires i < |dependencies| && s.api.gitTagFromVersion(dependencies[i]) !in tags
    requires zips(dependencies[i]) == GoModProxy.GetZipSpec(s.client, dependencies[i].path, dependencies[i].version)
    requires PushedUpTo(s, git, zips, repo, dependencies, tags, st0, log0, i)
    modifies repo
    ensures err.None? ==> PushedUpTo(s, git, zips, repo, dependencies, tags, st0, log0, i + 1)
    ensures err.Some? ==>
              var r := RunPushes(s, git, zips, st0, PushPlan(s.api, dependencies, tags, |dependencies|));
              repo.State() == r.state && err == r.err && repo.pushLog == log0 + r.attempted
  {
    ghost var st, log := repo.State(), repo.pushLog;
    var dependency := dependencies[i];
    var pushErr := GitPushDependencyTag(s, git, zips, repo, dependency, i == 0);
    PushOneStep(s, git, zips, dependencies, tags, st0, log0, i, st, log, repo.State(), repo.pushLog, pushErr);
    if pushErr.Some? {
      return Some(PushFailed(dependency, pushErr.value));
    }
    return None;
  }

  /** What one materialisation does to the run of the push plan: on success
      the plan has advanced by one candidate, on failure the whole plan stops
      there. */
  lemma PushOneStep(s: GoModulesSyncer, git: Git, zips: ZipSource, deps: seq<GoDependency>, tags: set<string>,
                    st0: RepoState, log0: seq<PushAttempt>, i: nat, st: RepoState, log: seq<PushAttempt>,
                    st': RepoState, log': seq<PushAttempt>, pushErr: Option<PushError>)
    requires i < |deps| && s.api.gitTagFromVersion(deps[i]) !in tags
    requires PushedUpToState(s, git, zips, deps, tags, st0, log0, i, st, log)
    requires PushResult(st', pushErr) == PushDependencyTag(s, git, zips(deps[i]), st, deps[i], i == 0)
    requires log' == log + [PushAttempt(deps[i], i == 0)]
    ensures pushErr.None? ==> PushedUpToState(s, git, zips, deps, tags, st0, log0, i + 1, st', log')
    ensures pushErr.Some? ==>
              var r := RunPushes(s, git, zips, st0, PushPlan(s.api, deps, tags, |deps|));
              st' == r.state && Some(PushFailed(deps[i], pushErr.value)) == r.err && log' == log0 + r.attempted
  {
    var plan := PushPlan(s.api, deps, tags, i);
    var attempt := PushAttempt(deps[i], i == 0);
    assert PushPlan(s.api, deps, tags, i + 1) == plan + [attempt];
    var prev := RunPushes(s, git, zips, st0, plan);
    RunPushesSnoc(s, git, zips, st0, plan, attempt, PushResult(st', pushErr));
    AppendAssociative(log0, prev.attempted, [attempt]);
    if pushErr.Some? {
      PushPlanStops(s, git, zips, st0, deps, tags, i + 1);
    }
  }

  /** The deletion loop of `Fetch`: `git tag -d` every tag of `tags` that is
      not a dependency tag; a failed deletion is skipped. */
  method DeleteUnwanted(git: Git, repo: BareRepository, tags: set<string>, dependencyTags: set<string>)
    modifies repo
    ensures repo.tags == old(repo.tags) - Deleted(git, tags, dependencyTags)
    ensures repo.latest == old(repo.latest) && repo.pushLog == old(repo.pushLog)
  {
    var toVisit := tags;
    while toVisit != {}
      invariant toVisit <= tags
      invariant repo.tags == old(repo.tags) - Deleted(git, tags - toVisit, dependencyTags)
      invariant repo.latest == old(repo.latest) && repo.pushLog == old(repo.pushLog)
      decreases toVisit
    {
      var tag :| tag in toVisit;
      if tag !in dependencyTags {
        if !git.deleteFails(tag) {
          repo.tags := repo.tags - {tag};
        }
      }
      assert tags - (toVisit - {tag}) == (tags - toVisit) + {tag};
      toVisit := toVisit - {tag};
    }
    assert tags - toVisit == tags;
  }

  // ---------------------------------------------------------------------------
  // What Fetch guarantees
  // ---------------------------------------------------------------------------

  /** Any error before the tag list is read leaves the repository untouched
      and attempts nothing. */
  lemma FetchEarlyErrorsChangeNothing(s: GoModulesSyncer, git: Git, remotePath: string, st: RepoState)
    requires var run := FetchSpec(s, git, remotePath, st);
             run.err.Some? && !run.err.value.PushFailed?
    ensures FetchSpec(s, git, remotePath, st).state == st
    ensures FetchSpec(s, git, remotePath, st).pushes == []
  {
    var dep := s.api.parseFromRepoName(remotePath);
    if dep.Some? && ModuleVersionsSpec(s, dep.value.path).Ok? {
      var deps := ModuleVersionsSpec(s, dep.value.path).value;
      if Cloneable(s.client, deps).Ok? && git.tagOutput.Some? {
        var cloneable := Cloneable(s.client, deps).value;
        RunPushesKeepsTags(s, git, ProxyZips(s.client), st, PushPlan(s.api, cloneable, Have(git.tagOutput.value), |cloneable|));
      }
    }
  }

  /** A push failure ends the call: no tag is deleted, and the attempts are
      the plan up to and including the failing one. */
  lemma FetchPushFailureDeletesNothing(s: GoModulesSyncer, git: Git, remotePath: string, st: RepoState)
    requires FetchSpec(s, git, remotePath, st).err.Some?
    ensures st.tags <= FetchSpec(s, git, remotePath, st).state.tags
  {
    var dep := s.api.parseFromRepoName(remotePath);
    if dep.Some? && ModuleVersionsSpec(s, dep.value.path).Ok? {
      var deps := ModuleVersionsSpec(s, dep.value.path).value;
      if Cloneable(s.client, deps).Ok? && git.tagOutput.Some? {
        var cloneable := Cloneable(s.client, deps).value;
        RunPushesKeepsTags(s, git, ProxyZips(s.client), st, PushPlan(s.api, cloneable, Have(git.tagOutput.value), |cloneable|));
      }
    }
  }

  /** On success the deleted tags are exactly the unwanted tags of the read
      set whose deletion went through; a wanted tag is never deleted, and a
      failed deletion does not turn into an error. */
  lemma FetchSuccessTags(s: GoModulesSyncer, git: Git, remotePath: string, st: RepoState)
    requires FetchSpec(s, git, remotePath, st).err.None?
    ensures var dep := s.api.parseFromRepoName(remotePath).value;
            var cloneable := Cloneable(s.client, ModuleVersionsSpec(s, dep.path).value).value;
            var have := Have(git.tagOutput.value);
            var wanted := Wanted(s.api, cloneable);
            var plan := PushPlan(s.api, cloneable, have, |cloneable|);
            var final := FetchSpec(s, git, remotePath, st);
            && final.pushes == plan
            && final.state.tags == (st.tags + PushedTags(s.api, plan)) - Deleted(git, have, wanted)
            && (forall t :: t in st.tags && t in wanted ==> t in final.state.tags)
            && (forall t :: t in st.tags && t !in final.state.tags ==> t in have && t !in wanted)
  {
    var dep := s.api.parseFromRepoName(remotePath).value;
    var cloneable := Cloneable(s.client, ModuleVersionsSpec(s, dep.path).value).value;
    var have := Have(git.tagOutput.value);
    RunPushesSuccess(s, git, ProxyZips(s.client), st, PushPlan(s.api, cloneable, have, |cloneable|));
  }

  /** The pushes never consult `git tag -d`: which deletions would fail does
      not change their outcome. */
  lemma {:induction false} RunPushesIgnoresDeletions(s: GoModulesSyncer, git: Git, zips: ZipSource, st: RepoState,
                                                     plan: seq<PushAttempt>, deleteFails: string -> bool)
    ensures RunPushes(s, git.(deleteFails := deleteFails), zips, st, plan) == RunPushes(s, git, zips, st, plan)
  {
    if plan != [] {
      RunPushesIgnoresDeletions(s, git, zips, st, plan[..|plan| - 1], deleteFails);
    }
  }

  /** A failing `git tag -d` does not abort `Fetch`: its error, its attempts
      and `latest` are the same whichever deletions fail, so a run that
      reaches the deletion loop returns no error even if every deletion
      fails. Only the set of tags left behind differs. */
  lemma FetchErrorIgnoresDeletions(s: GoModulesSyncer, git: Git, remotePath: string, st: RepoState, deleteFails: string -> bool)
    ensures var run, run' := FetchSpec(s, git, remotePath, st), FetchSpec(s, git.(deleteFails := deleteFails), remotePath, st);
            run'.err == run.err && run'.pushes == run.pushes && run'.state.latest == run.state.latest
  {
    var dep := s.api.parseFromRepoName(remotePath);
    if dep.Some? && ModuleVersionsSpec(s, dep.value.path).Ok? {
      var deps := ModuleVersionsSpec(s, dep.value.path).value;
      if Cloneable(s.client, deps).Ok? && git.tagOutput.Some? {
        var cloneable := Cloneable(s.client, deps).value;
        RunPushesIgnoresDeletions(s, git, ProxyZips(s.client), st, PushPlan(s.api, cloneable, Have(git.tagOutput.value), |cloneable|), deleteFails);
      }
    }
  }

  /** On success `latest` moves to the newest kept candidate exactly when
      that candidate's tag was missing; otherwise it stays. */
  lemma FetchSuccessLatest(s: GoModulesSyncer, git: Git, remotePath: string, st: RepoState)
    requires FetchSpec(s, git, remotePath, st).err.None?
    ensures var dep := s.api.parseFromRepoName(remotePath).value;
            var cloneable := Cloneable(s.client, ModuleVersionsSpec(s, dep.path).value).value;
            var have := Have(git.tagOutput.value);
            FetchSpec(s, git, remotePath, st).state.latest ==
              if cloneable != [] && s.api.gitTagFromVersion(cloneable[0]) !in have
              then Some(s.api.gitTagFromVersion(cloneable[0])) else st.latest
  {
    var dep := s.api.parseFromRepoName(remotePath).value;
    var cloneable := Cloneable(s.client, ModuleVersionsSpec(s, dep.path).value).value;
    var have := Have(git.tagOutput.value);
    var plan := PushPlan(s.api, cloneable, have, |cloneable|);
    PushPlanLatestOnlyFirst(s.api, cloneable, have, |cloneable|);
    RunPushesLatest(s, git, ProxyZips(s.client), st, plan);
    if cloneable != [] && s.api.gitTagFromVersion(cloneable[0]) !in have {
      PushPlanCoversMissing(s.api, cloneable, have, |cloneable|);
      PushPlanLength(s.api, cloneable, have, |cloneable|);
      var k :| 0 <= k < |plan| && plan[k] == PushAttempt(cloneable[0], true);
      assert k == 0;
    }
    PushPlanOnlyMissing(s.api, cloneable, have, |cloneable|);
    assert plan != [] && plan[0].isLatest ==> plan[0] in plan;
  }

  /** The conditions under which a `Fetch` reconciles completely: the `git tag`
      output lists exactly the repository's tags, and every push and every
      deletion it needs goes through. */
  ghost predicate Reconciles(s: GoModulesSyncer, git: Git, remotePath: string, st: RepoState)
  {
    match s.api.parseFromRepoName(remotePath)
    case None => false
    case Some(dep) =>
      && ModuleVersionsSpec(s, dep.path).Ok?
      && Cloneable(s.client, ModuleVersionsSpec(s, dep.path).value).Ok?
      && git.tagOutput.Some?
      && Have(git.tagOutput.value) == st.tags
      && var cloneable := Cloneable(s.client, ModuleVersionsSpec(s, dep.path).value).value;
         && (forall i :: 0 <= i < |cloneable| ==> PushSucceeds(git, GoModProxy.GetZipSpec(s.client, cloneable[i].path, cloneable[i].version), cloneable[i], i == 0))
         && (forall t :: t in st.tags && t !in Wanted(s.api, cloneable) ==> !git.deleteFails(t))
  }

  /** The candidate list a reconciling `Fetch` works from. */
  function KeptCandidates(s: GoModulesSyncer, remotePath: string): seq<GoDependency>
    requires s.api.parseFromRepoName(remotePath).Some?
    requires ModuleVersionsSpec(s, s.api.parseFromRepoName(remotePath).value.path).Ok?
    requires Cloneable(s.client, ModuleVersionsSpec(s, s.api.parseFromRepoName(remotePath).value.path).value).Ok?
  {
    Cloneable(s.client, ModuleVersionsSpec(s, s.api.parseFromRepoName(remotePath).value.path).value).value
  }

  /** A reconciling `Fetch` succeeds and leaves exactly the wanted tags. */
  lemma FetchConverges(s: GoModulesSyncer, git: Git, remotePath: string, st: RepoState)
    requires Reconciles(s, git, remotePath, st)
    ensures FetchSpec(s, git, remotePath, st).err.None?
    ensures FetchSpec(s, git, remotePath, st).state.tags == Wanted(s.api, KeptCandidates(s, remotePath))
  {
    var cloneable := KeptCandidates(s, remotePath);
    var have := Have(git.tagOutput.value);
    var plan := PushPlan(s.api, cloneable, have, |cloneable|);
    var wanted := Wanted(s.api, cloneable);
    PushPlanSucceeds(s, git, ProxyZips(s.client), cloneable, have, |cloneable|);
    RunPushesOkIff(s, git, ProxyZips(s.client), st, plan);
    RunPushesSuccess(s, git, ProxyZips(s.client), st, plan);
    PushPlanTags(s.api, cloneable, have, |cloneable|);
    assert cloneable[..|cloneable|] == cloneable;
    assert Deleted(git, have, wanted) == have - wanted;
  }

  /** Idempotence: after a reconciling `Fetch`, a second `Fetch` with the same
      inputs, whose `git tag` lists the new tags, attempts no push, deletes
      nothing and leaves the repository as it was. */
  lemma FetchIdempotent(s: GoModulesSyncer, git: Git, remotePath: string, st: RepoState, secondListing: string)
    requires Reconciles(s, git, remotePath, st)
    requires Have(secondListing) == FetchSpec(s, git, remotePath, st).state.tags
    ensures var st1 := FetchSpec(s, git, remotePath, st).state;
            var second := FetchSpec(s, git.(tagOutput := Some(secondListing)), remotePath, st1);
            second.err.None? && second.pushes == [] && second.state == st1
  {
    FetchConverges(s, git, remotePath, st);
    var st1 := FetchSpec(s, git, remotePath, st).state;
    var git2 := git.(tagOutput := Some(secondListing));
    var cloneable := KeptCandidates(s, remotePath);
    var have := Have(secondListing);
    var plan := PushPlan(s.api, cloneable, have, |cloneable|);
    PushPlanNothingMissing(s.api, cloneable, have, |cloneable|);
    assert Deleted(git2, have, Wanted(s.api, cloneable)) == {};
  }

  // ---------------------------------------------------------------------------
  // CloneCommand
  // ---------------------------------------------------------------------------

  datatype CloneError = MkdirFailed | InitFailed | FetchFailed(cause: FetchError)

  /** `CloneCommand`: create the directory, `git --bare init` it, then `Fetch`
      into the new repository. A failed `Fetch` still leaves the repository. */
  method CloneCommand(s: GoModulesSyncer, git: Git, remotePath: string, mkdirFails: bool, initFails: bool)
    returns (repo: BareRepository?, err: Option<CloneError>)
    ensures mkdirFails ==> repo == null && err == Some(MkdirFailed)
    ensures !mkdirFails && initFails ==> repo == null && err == Some(InitFailed)
    ensures !mkdirFails && !initFails ==>
              var run := FetchSpec(s, git, remotePath, RepoState({}, None));
              && repo != null && fresh(repo)
              && repo.State() == run.state && repo.pushLog == run.pushes
              && err == if run.err.Some? then Some(FetchFailed(run.err.value)) else None
  {
    if mkdirFails {
      return null, Some(MkdirFailed);
    }
    if initFails {
      return null, Some(InitFailed);
    }
    var r := new BareRepository();
    var fetchErr := Fetch(s, git, remotePath, r);
    repo := r;
    err := if fetchErr.Some? then Some(FetchFailed(fetchErr.value)) else None;
  }
}
