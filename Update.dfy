/** `UpdateManager` of brownie/test/update.py: the object the test runner
    creates at start-up, asks whether a module may be skipped, and tells
    when a module has finished. */
module Update {

  import opened Wrappers
  import opened Collections
  import opened Fingerprint
  import opened Cache

  class UpdateManager {

    /** Where the cache file lives (`self.path`). */
    const path: string
    /** The file system, parser and hash the fingerprints are computed with. */
    const env: Env
    /** `self.conf_hashes`: conftest path to its AST hash. Only `__init__`
        assigns it. */
    const confHashes: map<string, string>
    /** `self._get_hash`: the fingerprint of a module under this manager's
        conftest paths, `Fingerprinter(env, confHashes.Keys)`. */
    const getHash: string -> Result<string, HashError>
    /** `self.tests`: module path to its record. */
    var tests: map<string, Entry>
    /** `self.contracts`: contract name to its bytecode hash. */
    var contracts: map<string, string>
    /** `self.isolated`: the paths of isolated modules, unset until
        `set_isolated` is called. */
    var isolated: Option<set<string>>
    /** The calls made to `history.add_coverage`, in order. */
    ghost var coverageFed: seq<(string, CoverageEval)>

    /** Every record held carries its module's fingerprint as computed over
        `env`, the file system the manager was opened with. Since `env` is
        fixed, the stored fingerprints stay current for the manager's
        lifetime; an edit made after `Open` is outside the model. */
    ghost predicate Valid()
      reads this
    {
      forall k | k in tests :: getHash(k) == Ok(tests[k].sha1)
    }

    /** `getHash` is `_get_hash` over this manager's environment and
        conftest paths. */
    ghost predicate HashBound()
      reads this
    {
      getHash == Fingerprinter(env, confHashes.Keys)
    }

    constructor (path: string, env: Env, confHashes: map<string, string>, tests: map<string, Entry>,
                 contracts: map<string, string>, ghost fed: seq<(string, CoverageEval)>)
      ensures this.path == path && this.env == env && this.confHashes == confHashes && HashBound()
      ensures this.tests == tests && this.contracts == contracts && isolated == None
      ensures coverageFed == fed
    {
      this.path := path;
      this.env := env;
      this.confHashes := confHashes;
      getHash := Fingerprinter(env, confHashes.Keys);
      this.tests := tests;
      this.contracts := contracts;
      isolated := None;
      coverageFed := fed;
    }

    /** `UpdateManager(path)`: hash the conftest files, load the cache
        (`loaded` is None when the file is missing or not valid JSON), drop
        the stale records and hand the still-valid coverage back to the
        history. It raises exactly when `Reconcile` does, and otherwise
        leaves exactly the state `Reconcile` describes. */
    static method Open(path: string, env: Env, confFiles: seq<string>, loaded: Option<Cache>,
                       build: map<string, BuildEntry>)
      returns (r: Result<UpdateManager, HashError>)
      ensures Reconcile(env, confFiles, loaded, build).Err? ==>
                r.Err? && r.error == Reconcile(env, confFiles, loaded, build).error
      ensures Reconcile(env, confFiles, loaded, build).Ok? ==>
                var rec := Reconcile(env, confFiles, loaded, build).value;
                && r.Ok? && fresh(r.value) && r.value.Valid() && r.value.HashBound()
                && r.value.path == path && r.value.env == env && r.value.isolated == None
                && r.value.confHashes == rec.confHashes && r.value.tests == rec.tests
                && r.value.contracts == rec.contracts && r.value.coverageFed == rec.fed
    {
      var conf := HashConftests(env, confFiles);
      if conf.Err? {
        return Err(conf.error);
      }
      var confHashes := conf.value;
      var cache := Loaded(loaded);
      var kept := DropStale(env, confHashes.Keys, cache.tests);
      if kept.Err? {
        return Err(kept.error);
      }
      var tests := kept.value;
      var contracts := CurrentContracts(build);
      var changed := ChangedContracts(cache.contracts, contracts);
      ghost var fed := FeedCoverage(changed, cache.tx);
      if changed != {} {
        tests := IsolationFiltered(changed, tests);
      }
      ReconcileTests(env, confFiles, cache, build);
      var m := new UpdateManager(path, env, confHashes, tests, contracts, fed);
      r := Ok(m);
    }

    /** `set_isolated(paths)` */
    method SetIsolated(paths: set<string>)
      modifies this`isolated
      ensures isolated == Some(paths)
    {
      isolated := Some(paths);
    }

    /** `check_updated(path)`: a module may be skipped when its record
        survived, it is isolated with at least one dependency, and coverage
        is not required or was collected. Nothing is recomputed: a module
        that may be skipped has the fingerprint stored for it as computed
        over the manager's file system, which is fixed from `Open` on. */
    function CheckUpdated(p: string, coverageMode: bool): (r: bool)
      reads this
      ensures r <==> p in tests && Skippable(tests[p], coverageMode)
      ensures r && Valid() ==> getHash(p) == Ok(tests[p].sha1)
    {
      if p !in tests || !Truthy(tests[p].isolated) then false
      else if coverageMode && !tests[p].coverage then false
      else true
    }

    /** `finish_module(path)`: overwrite the module's record with its fresh
        fingerprint, its isolation (the run's dependencies that are current
        contracts, when the module is isolated), the sticky coverage flag
        and the history's transaction hashes. Nothing else changes; if the
        module cannot be hashed the method raises before writing. */
    method FinishModule(p: string, deps: seq<string>, coverageMode: bool, txHashes: seq<string>)
      returns (err: Option<HashError>)
      requires Valid() && isolated.Some?
      modifies this`tests
      ensures Valid()
      ensures getHash(p).Err? ==> err == Some(getHash(p).error) && tests == old(tests)
      ensures getHash(p).Ok? ==>
                err == None &&
                tests == old(tests)[p := RecordedEntry(old(tests), p, getHash(p).value,
                                                       isolated.value, deps, contracts, coverageMode, txHashes)]
    {
      var iso := NotIsolated;
      if p in isolated.value {
        var known := KnownDependencies(deps, contracts);
        iso := IsolatedWith(known);
      }
      var h := getHash(p);
      if h.Err? {
        return Some(h.error);
      }
      var covered := coverageMode || (p in tests && tests[p].coverage);
      var entry := Entry(h.value, iso, covered, txHashes);
      assert entry == RecordedEntry(tests, p, h.value, isolated.value, deps, contracts, coverageMode, txHashes);
      ghost var before := tests;
      tests := tests[p := entry];
      assert forall k | k in tests && k != p :: k in before && tests[k] == before[k];
      err := None;
    }
  }

  /** The loop of `__init__` that builds `conf_hashes`: the AST hash of
      every conftest file, or the first error. */
  method HashConftests(env: Env, confFiles: seq<string>) returns (r: Result<map<string, string>, HashError>)
    ensures r == ConfHashes(AstHasher(env), confFiles)
  {
    var confHashes: map<string, string> := map[];
    var i := 0;
    while i < |confFiles|
      invariant 0 <= i <= |confFiles|
      invariant ConfHashes(AstHasher(env), confFiles[..i]) == Ok(confHashes)
    {
      var h := AstHash(env, confFiles[i]);
      assert confFiles[..i + 1][..i] == confFiles[..i];
      if h.Err? {
        ConfHashesStops(AstHasher(env), confFiles, i + 1);
        return Err(h.error);
      }
      confHashes := confHashes[confFiles[i] := h.value];
      i := i + 1;
    }
    assert confFiles[..i] == confFiles;
    r := Ok(confHashes);
  }

  /** The loop of `__init__` that keeps the cached records of existing
      modules whose fingerprint still matches, raising when an existing
      module cannot be hashed. */
  method DropStale(env: Env, confPaths: set<string>, items: seq<(string, Entry)>)
    returns (r: Result<map<string, Entry>, HashError>)
    ensures r == HashFiltered(env.pathExists, Fingerprinter(env, confPaths), items)
  {
    ghost var fingerprint := Fingerprinter(env, confPaths);
    var tests: map<string, Entry> := map[];
    var i := 0;
    while i < |items|
      invariant 0 <= i <= |items|
      invariant HashFiltered(env.pathExists, fingerprint, items[..i]) == Ok(tests)
    {
      var (k, v) := items[i];
      assert items[..i + 1][..i] == items[..i];
      if env.pathExists(k) {
        var h := ModuleHash(env, confPaths, k);
        if h.Err? {
          HashFilteredStops(env.pathExists, fingerprint, items, i + 1);
          return Err(h.error);
        }
        if h.value == v.sha1 {
          tests := tests[k := v];
        }
      }
      i := i + 1;
    }
    assert items[..i] == items;
    r := Ok(tests);
  }

  /** The two loops of `__init__` that call `history.add_coverage`: every
      cached record when no contract changed, otherwise those whose
      coverage touches no changed contract. Returns the calls made. */
  method FeedCoverage(changed: set<string>, tx: seq<(string, CoverageEval)>)
    returns (ghost fed: seq<(string, CoverageEval)>)
    ensures fed == if changed != {} then Refed(changed, tx) else tx
  {
    fed := [];
    var i := 0;
    if changed != {} {
      while i < |tx|
        invariant 0 <= i <= |tx|
        invariant fed == Refed(changed, tx[..i])
      {
        var (txhash, coverageEval) := tx[i];
        assert tx[..i + 1][..i] == tx[..i];
        if coverageEval.Keys !! changed {
          fed := fed + [(txhash, coverageEval)];
        }
        i := i + 1;
      }
      assert tx[..i] == tx;
    } else {
      while i < |tx|
        invariant 0 <= i <= |tx|
        invariant fed == tx[..i]
      {
        fed := fed + [tx[i]];
        assert tx[..i + 1] == tx[..i] + [tx[i]];
        i := i + 1;
      }
      assert tx[..i] == tx;
    }
  }

  /** The list comprehension of `finish_module`: the run's dependencies
      that are current contracts, in order. */
  method KnownDependencies(deps: seq<string>, contracts: map<string, string>) returns (known: seq<string>)
    ensures known == KnownDeps(deps, contracts)
  {
    known := [];
    var i := 0;
    while i < |deps|
      invariant 0 <= i <= |deps|
      invariant known == KnownDeps(deps[..i], contracts)
    {
      assert deps[..i + 1][..i] == deps[..i];
      if deps[i] in contracts {
        known := known + [deps[i]];
      }
      i := i + 1;
    }
    assert deps[..i] == deps;
  }

  /** A module the freshly opened manager lets be skipped is a cached
      module that still exists with its stored fingerprint, is isolated
      with at least one dependency, and, when some contract changed,
      depends on none of the changed contracts. */
  lemma SkipAfterOpen(env: Env, confFiles: seq<string>, cache: Cache, build: map<string, BuildEntry>,
                      p: string, coverageMode: bool)
    requires Reconcile(env, confFiles, Some(cache), build).Ok?
    requires var r := Reconcile(env, confFiles, Some(cache), build).value;
             p in r.tests && Skippable(r.tests[p], coverageMode)
    ensures var r := Reconcile(env, confFiles, Some(cache), build).value;
            var cached := ToMap(cache.tests);
            && p in cached && env.pathExists(p)
            && ModuleHash(env, r.confHashes.Keys, p) == Ok(cached[p].sha1)
            && cached[p].isolated.IsolatedWith? && cached[p].isolated.deps != []
            && (coverageMode ==> cached[p].coverage)
            && (r.changed != {} ==> DisjointFrom(cached[p].isolated.deps, r.changed))
  {
    ReconcileTests(env, confFiles, cache, build);
  }

}
