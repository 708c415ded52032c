/** The persisted cache of brownie/test/update.py and the pure rules by
    which `UpdateManager.__init__` reconciles it with the current build,
    `check_updated` answers, `finish_module` writes a record and
    `_save_json` shapes what is written back. The class in Update.dfy runs
    these rules step by step; this module states and proves what they
    promise. */
module Cache {

  import opened Wrappers
  import opened Strings
  import opened Collections
  import opened Fingerprint

  /** The `isolated` field of a test record: `False`, or the list of
      contracts the module was seen to depend on. */
  datatype Isolation = NotIsolated | IsolatedWith(deps: seq<string>)

  /** One record of the `tests` section, keyed by the module's path. */
  datatype Entry = Entry(sha1: string, isolated: Isolation, coverage: bool, txhash: seq<string>)

  /** The coverage data of one transaction: for each contract it touched,
      the evaluation brownie stores for it (kept abstract as offsets). */
  type CoverageEval = map<string, seq<nat>>

  /** The loaded JSON document: `tests`, `contracts` (name to bytecode
      sha1) and `tx` (transaction hash to coverage data), with the dict
      order of the file. */
  datatype Cache = Cache(
    tests: Dict<string, Entry>,
    contracts: map<string, string>,
    tx: Dict<string, CoverageEval>)

  /** What a missing or malformed cache file loads as. */
  const EmptyCache: Cache := Cache([], map[], [])

  /** One contract of the current build: its bytecode (empty for an
      interface or abstract contract) and the sha1 of that bytecode. */
  datatype BuildEntry = BuildEntry(bytecode: string, bytecodeSha1: string)

  /** What `__init__` leaves behind: the conftest hashes, the retained test
      records, the current contract hashes, the changed-contract set, and
      the coverage records handed to `history.add_coverage`, in call order. */
  datatype Reconciled = Reconciled(
    confHashes: map<string, string>,
    tests: map<string, Entry>,
    contracts: map<string, string>,
    changed: set<string>,
    fed: seq<(string, CoverageEval)>)

  // ---------------------------------------------------------------------
  // The steps of __init__

  /** `conf_hashes`: the AST hash of every conftest file, keyed by its path;
      the first file that cannot be hashed raises. */
  function ConfHashes(astHash: string -> Result<string, HashError>, files: seq<string>): (r: Result<map<string, string>, HashError>)
    ensures r.Ok? ==> r.value.Keys == set i | 0 <= i < |files| :: files[i]
  {
    if files == [] then Ok(map[])
    else
      var n := |files| - 1;
      match ConfHashes(astHash, files[..n])
      case Err(e) => Err(e)
      case Ok(m) =>
        match astHash(files[n])
        case Err(e) => Err(e)
        case Ok(h) =>
          assert files == files[..n] + [files[n]];
          Ok(m[files[n] := h])
  }

  /** `get_ast_hash` as a function value. */
  function AstHasher(env: Env): string -> Result<string, HashError>
  {
    p => AstHash(env, p)
  }

  /** `self._get_hash` as a function value, for the given conftest paths. */
  function Fingerprinter(env: Env, confPaths: set<string>): string -> Result<string, HashError>
  {
    p => ModuleHash(env, confPaths, p)
  }

  /** Once a prefix of the conftest files fails to hash, `conf_hashes`
      fails with that error. */
  lemma {:induction false} ConfHashesStops(astHash: string -> Result<string, HashError>, files: seq<string>, i: nat)
    requires i <= |files| && ConfHashes(astHash, files[..i]).Err?
    ensures ConfHashes(astHash, files) == ConfHashes(astHash, files[..i])
    decreases |files| - i
  {
    if i < |files| {
      var n := |files| - 1;
      assert files[..n][..i] == files[..i];
      ConfHashesStops(astHash, files[..n], i);
    } else {
      assert files[..i] == files;
    }
  }

  /** A cached record whose module still exists and still has the
      fingerprint stored in it. */
  ghost predicate Unchanged(pathExists: string -> bool, fingerprint: string -> Result<string, HashError>, path: string, e: Entry)
  {
    pathExists(path) && fingerprint(path) == Ok(e.sha1)
  }

  /** The first filter of `tests`: keep the records of modules that exist
      and whose recomputed fingerprint equals the stored one; a module that
      exists but cannot be hashed raises. */
  function HashFiltered(pathExists: string -> bool, fingerprint: string -> Result<string, HashError>,
                        items: seq<(string, Entry)>): (r: Result<map<string, Entry>, HashError>)
  {
    if items == [] then Ok(map[])
    else
      var n := |items| - 1;
      match HashFiltered(pathExists, fingerprint, items[..n])
      case Err(e) => Err(e)
      case Ok(m) =>
        var (path, entry) := items[n];
        if !pathExists(path) then Ok(m)
        else
          match fingerprint(path)
          case Err(e) => Err(e)
          case Ok(h) => Ok(if h == entry.sha1 then m[path := entry] else m)
  }

  /** Once a prefix of the cached records makes the filter raise, the
      whole filter raises with that error. */
  lemma {:induction false} HashFilteredStops(pathExists: string -> bool, fingerprint: string -> Result<string, HashError>,
                                             items: seq<(string, Entry)>, i: nat)
    requires i <= |items| && HashFiltered(pathExists, fingerprint, items[..i]).Err?
    ensures HashFiltered(pathExists, fingerprint, items) == HashFiltered(pathExists, fingerprint, items[..i])
    decreases |items| - i
  {
    if i < |items| {
      var n := |items| - 1;
      assert items[..n][..i] == items[..i];
      HashFilteredStops(pathExists, fingerprint, items[..n], i);
    } else {
      assert items[..i] == items;
    }
  }

  /** `self.contracts`: the hash of every built contract that has bytecode. */
  function CurrentContracts(build: map<string, BuildEntry>): (contracts: map<string, string>)
  {
    map k | k in build && build[k].bytecode != "" :: build[k].bytecodeSha1
  }

  /** `changed_contracts`: the cached contracts that are gone from the
      current contracts or whose hash differs. */
  function ChangedContracts(cached: map<string, string>, current: map<string, string>): (changed: set<string>)
  {
    set k | k in cached && (k !in current || cached[k] != current[k])
  }

  /** `not changed_contracts.intersection(isolated)` */
  predicate DisjointFrom(deps: seq<string>, changed: set<string>)
  {
    forall i | 0 <= i < |deps| :: deps[i] !in changed
  }

  /** The second filter of `tests`, applied only when some contract
      changed: keep the isolated records none of whose dependencies changed. */
  function IsolationFiltered(changed: set<string>, tests: map<string, Entry>): (kept: map<string, Entry>)
  {
    map k | k in tests && tests[k].isolated.IsolatedWith? && DisjointFrom(tests[k].isolated.deps, changed)
      :: tests[k]
  }

  /** The coverage records handed back to the history when some contract
      changed: those whose coverage mentions no changed contract, in order. */
  function Refed(changed: set<string>, tx: seq<(string, CoverageEval)>): (fed: seq<(string, CoverageEval)>)
  {
    Filter(tx, (record: (string, CoverageEval)) => record.1.Keys !! changed)
  }

  /** The cache `__init__` works from. */
  function Loaded(loaded: Option<Cache>): (cache: Cache)
  {
    if loaded.None? then EmptyCache else loaded.value
  }

  /** `UpdateManager.__init__`: reconcile the loaded cache (None when the
      file is missing or malformed) with the current build. */
  function Reconcile(env: Env, confFiles: seq<string>, loaded: Option<Cache>, build: map<string, BuildEntry>)
    : (r: Result<Reconciled, HashError>)
  {
    var cache := Loaded(loaded);
    match ConfHashes(AstHasher(env), confFiles)
    case Err(e) => Err(e)
    case Ok(confHashes) =>
      match HashFiltered(env.pathExists, Fingerprinter(env, confHashes.Keys), cache.tests)
      case Err(e) => Err(e)
      case Ok(kept) =>
        var contracts := CurrentContracts(build);
        var changed := ChangedContracts(cache.contracts, contracts);
        if changed != {} then
          Ok(Reconciled(confHashes, IsolationFiltered(changed, kept), contracts, changed, Refed(changed, cache.tx)))
        else
          Ok(Reconciled(confHashes, kept, contracts, changed, cache.tx))
  }

  // ---------------------------------------------------------------------
  // Properties of the reconciliation

  /** A conftest file that cannot be hashed makes `__init__` raise, even
      though the hashes themselves are never used; otherwise every conftest
      path is mapped to its own AST hash. */
  lemma {:induction false} ConfHashesSpec(astHash: string -> Result<string, HashError>, files: seq<string>)
    ensures ConfHashes(astHash, files).Ok? <==> forall i | 0 <= i < |files| :: astHash(files[i]).Ok?
    ensures ConfHashes(astHash, files).Ok? ==>
              forall k | k in ConfHashes(astHash, files).value :: astHash(k) == Ok(ConfHashes(astHash, files).value[k])
  {
    if files != [] {
      var n := |files| - 1;
      assert forall i | 0 <= i < n :: files[..n][i] == files[i];
      ConfHashesSpec(astHash, files[..n]);
    }
  }

  lemma {:induction false} HashFilteredOk(pathExists: string -> bool, fingerprint: string -> Result<string, HashError>,
                                          items: seq<(string, Entry)>)
    ensures HashFiltered(pathExists, fingerprint, items).Ok? <==>
              forall i | 0 <= i < |items| :: pathExists(items[i].0) ==> fingerprint(items[i].0).Ok?
  {
    if items != [] {
      var n := |items| - 1;
      assert forall i | 0 <= i < n :: items[..n][i] == items[i];
      HashFilteredOk(pathExists, fingerprint, items[..n]);
    }
  }

  lemma {:induction false} HashFilteredKept(pathExists: string -> bool, fingerprint: string -> Result<string, HashError>,
                                            items: seq<(string, Entry)>)
    requires DistinctKeys(items)
    requires HashFiltered(pathExists, fingerprint, items).Ok?
    ensures var kept := HashFiltered(pathExists, fingerprint, items).value;
            && (forall k | k in kept :: k in ToMap(items) && kept[k] == ToMap(items)[k] && Unchanged(pathExists, fingerprint, k, kept[k]))
            && (forall k | k in ToMap(items) && Unchanged(pathExists, fingerprint, k, ToMap(items)[k]) :: k in kept)
  {
    if items != [] {
      var n := |items| - 1;
      var prefix := items[..n];
      assert forall i | 0 <= i < n :: prefix[i] == items[i];
      HashFilteredKept(pathExists, fingerprint, prefix);
      var (path, entry) := items[n];
      var all := ToMap(items);
      var before := ToMap(prefix);
      assert forall i | 0 <= i < n :: prefix[i].0 != path;
      assert path !in before;
      assert all == before[path := entry];
      var kept := HashFiltered(pathExists, fingerprint, items).value;
      var kp := HashFiltered(pathExists, fingerprint, prefix).value;
      assert path !in kp;
      assert kept == if pathExists(path) && fingerprint(path) == Ok(entry.sha1) then kp[path := entry] else kp;
      forall k | k in kept
        ensures k in all && kept[k] == all[k] && Unchanged(pathExists, fingerprint, k, kept[k])
      {
        if k != path {
          assert k in kp;
        }
      }
      forall k | k in all && Unchanged(pathExists, fingerprint, k, all[k])
        ensures k in kept
      {
        if k != path {
          assert k in before;
        }
      }
    }
  }

  /** The first test filter keeps exactly the cached records of modules
      that exist and whose fingerprint is unchanged, with their stored
      values; it raises exactly when some existing module cannot be hashed. */
  lemma HashFilteredSpec(pathExists: string -> bool, fingerprint: string -> Result<string, HashError>,
                         items: seq<(string, Entry)>)
    requires DistinctKeys(items)
    ensures HashFiltered(pathExists, fingerprint, items).Ok? <==>
              forall i | 0 <= i < |items| :: pathExists(items[i].0) ==> fingerprint(items[i].0).Ok?
    ensures HashFiltered(pathExists, fingerprint, items).Ok? ==>
              var kept := HashFiltered(pathExists, fingerprint, items).value;
              && (forall k | k in kept :: k in ToMap(items) && kept[k] == ToMap(items)[k] && Unchanged(pathExists, fingerprint, k, kept[k]))
              && (forall k | k in ToMap(items) && Unchanged(pathExists, fingerprint, k, ToMap(items)[k]) :: k in kept)
  {
    HashFilteredOk(pathExists, fingerprint, items);
    if HashFiltered(pathExists, fingerprint, items).Ok? {
      HashFilteredKept(pathExists, fingerprint, items);
    }
  }

  /** Cold start: with no usable cache file nothing is retained, nothing
      changed, and no coverage is handed to the history. */
  lemma ColdStart(env: Env, confFiles: seq<string>, build: map<string, BuildEntry>)
    ensures Reconcile(env, confFiles, None, build).Ok? <==> ConfHashes(AstHasher(env), confFiles).Ok?
    ensures Reconcile(env, confFiles, None, build).Ok? ==>
              Reconcile(env, confFiles, None, build).value ==
                Reconciled(ConfHashes(AstHasher(env), confFiles).value, map[], CurrentContracts(build), {}, [])
  {
  }

  /** The current contracts are exactly the built contracts with bytecode,
      each mapped to its bytecode hash. */
  lemma CurrentContractsSpec(build: map<string, BuildEntry>, name: string)
    ensures name in CurrentContracts(build) <==> name in build && |build[name].bytecode| > 0
    ensures name in CurrentContracts(build) ==> CurrentContracts(build)[name] == build[name].bytecodeSha1
  {
  }

  /** The changed set is computed from the cached side: a contract that
      vanished from the build, or lost its bytecode, or whose bytecode hash
      differs is in it; a contract absent from the cache never is, however
      new its bytecode. */
  lemma ChangedContractsSpec(cached: map<string, string>, build: map<string, BuildEntry>, name: string)
    ensures var changed := ChangedContracts(cached, CurrentContracts(build));
            && (name !in cached ==> name !in changed)
            && (name in cached && (name !in build || build[name].bytecode == "") ==> name in changed)
            && (name in cached && name in build && build[name].bytecode != "" ==>
                  (name in changed <==> cached[name] != build[name].bytecodeSha1))
  {
  }

  /** Which test records survive `__init__`: each one is a cached record,
      unchanged, of an existing module whose fingerprint still matches;
      with no changed contract all such records survive; otherwise exactly
      those that are isolated and depend on no changed contract. */
  lemma ReconcileTests(env: Env, confFiles: seq<string>, cache: Cache, build: map<string, BuildEntry>)
    requires Reconcile(env, confFiles, Some(cache), build).Ok?
    ensures var r := Reconcile(env, confFiles, Some(cache), build).value;
            var cached := ToMap(cache.tests);
            var fingerprint := Fingerprinter(env, r.confHashes.Keys);
            && (forall k | k in r.tests :: k in cached && r.tests[k] == cached[k] && Unchanged(env.pathExists, fingerprint, k, cached[k]))
            && (r.changed == {} ==>
                  forall k | k in cached && Unchanged(env.pathExists, fingerprint, k, cached[k]) :: k in r.tests)
            && (r.changed != {} ==>
                  forall k | k in cached ::
                    k in r.tests <==> Unchanged(env.pathExists, fingerprint, k, cached[k])
                                      && cached[k].isolated.IsolatedWith?
                                      && DisjointFrom(cached[k].isolated.deps, r.changed))
  {
    var r := Reconcile(env, confFiles, Some(cache), build).value;
    var fingerprint := Fingerprinter(env, r.confHashes.Keys);
    HashFilteredKept(env.pathExists, fingerprint, cache.tests);
    var kept := HashFiltered(env.pathExists, fingerprint, cache.tests).value;
    assert r.changed == ChangedContracts(cache.contracts, CurrentContracts(build));
    assert r.tests == if r.changed != {} then IsolationFiltered(r.changed, kept) else kept;
  }

  /** The coverage records handed to the history: with no changed contract
      all cached records in cache order; otherwise exactly those whose
      coverage touches no changed contract, each once, in cache order. */
  lemma ReconcileCoverage(env: Env, confFiles: seq<string>, cache: Cache, build: map<string, BuildEntry>)
    returns (idx: seq<nat>)
    requires Reconcile(env, confFiles, Some(cache), build).Ok?
    ensures var r := Reconcile(env, confFiles, Some(cache), build).value;
            && |idx| == |r.fed|
            && (forall j | 0 <= j < |idx| :: idx[j] < |cache.tx| && r.fed[j] == cache.tx[idx[j]])
            && (forall j, j' | 0 <= j < j' < |idx| :: idx[j] < idx[j'])
            && (forall i | 0 <= i < |cache.tx| :: i in idx <==> cache.tx[i].1.Keys !! r.changed)
  {
    var r := Reconcile(env, confFiles, Some(cache), build).value;
    if r.changed == {} {
      idx := seq(|cache.tx|, i requires 0 <= i < |cache.tx| => i);
      assert forall i | 0 <= i < |cache.tx| :: idx[i] == i;
    } else {
      idx := FilterIndices(cache.tx, (record: (string, CoverageEval)) => record.1.Keys !! r.changed);
    }
  }

  /** Both branches of `__init__` feed the same records when nothing
      changed: filtering by an empty changed set keeps every record. */
  lemma RefedNothingChanged(tx: seq<(string, CoverageEval)>)
    ensures Refed({}, tx) == tx
  {
    FilterAll(tx, (record: (string, CoverageEval)) => record.1.Keys !! {});
  }

  // ---------------------------------------------------------------------
  // check_updated and finish_module

  /** Python truthiness of the `isolated` field: `False` and `[]` are false. */
  predicate Truthy(iso: Isolation)
  {
    iso.IsolatedWith? && iso.deps != []
  }

  /** Whether `check_updated` lets a module with this record be skipped. */
  predicate Skippable(e: Entry, coverageMode: bool)
  {
    Truthy(e.isolated) && (!coverageMode || e.coverage)
  }

  /** `[i for i in dependencies if i in self.contracts]` */
  function KnownDeps(deps: seq<string>, contracts: map<string, string>): (known: seq<string>)
  {
    Filter(deps, (c: string) => c in contracts)
  }

  /** The record `finish_module(path)` stores, given the fingerprint it
      computed, the paths marked isolated, the contracts the module's run
      depended on, the coverage flag and the history's transaction hashes. */
  function RecordedEntry(tests: map<string, Entry>, path: string, hash: string, isolatedPaths: set<string>,
                         deps: seq<string>, contracts: map<string, string>, coverageMode: bool, txHashes: seq<string>): (e: Entry)
  {
    Entry(
      hash,
      if path in isolatedPaths then IsolatedWith(KnownDeps(deps, contracts)) else NotIsolated,
      coverageMode || (path in tests && tests[path].coverage),
      txHashes)
  }

  /** The recorded dependencies are the run's dependencies that are current
      contracts, each kept, in the run's order. */
  lemma KnownDepsSpec(deps: seq<string>, contracts: map<string, string>) returns (idx: seq<nat>)
    ensures var known := KnownDeps(deps, contracts);
            && |idx| == |known|
            && (forall j | 0 <= j < |idx| :: idx[j] < |deps| && known[j] == deps[idx[j]] && known[j] in contracts)
            && (forall j, j' | 0 <= j < j' < |idx| :: idx[j] < idx[j'])
            && (forall i | 0 <= i < |deps| :: i in idx <==> deps[i] in contracts)
  {
    idx := FilterIndices(deps, (c: string) => c in contracts);
  }

  /** Coverage, once recorded for a module, stays recorded: a run without
      coverage keeps the old flag, a run with coverage sets it. */
  lemma CoverageSticky(tests: map<string, Entry>, path: string, hash: string, isolatedPaths: set<string>,
                       deps: seq<string>, contracts: map<string, string>, coverageMode: bool, txHashes: seq<string>)
    ensures var e := RecordedEntry(tests, path, hash, isolatedPaths, deps, contracts, coverageMode, txHashes);
            && (coverageMode ==> e.coverage)
            && (path in tests && tests[path].coverage ==> e.coverage)
            && (e.coverage ==> coverageMode || (path in tests && tests[path].coverage))
  {
  }

  /** Right after `finish_module`, a module can be skipped exactly when it
      was marked isolated, its run touched at least one current contract,
      and coverage is not required or has been collected for it. A module
      recorded without coverage is never skipped in a coverage run. */
  lemma RecordThenSkip(tests: map<string, Entry>, path: string, hash: string, isolatedPaths: set<string>,
                       deps: seq<string>, contracts: map<string, string>, coverageFlag: bool, txHashes: seq<string>,
                       coverageMode: bool)
    ensures Skippable(RecordedEntry(tests, path, hash, isolatedPaths, deps, contracts, coverageFlag, txHashes), coverageMode)
            <==> path in isolatedPaths
                 && (exists c | c in deps :: c in contracts)
                 && (coverageMode ==> coverageFlag || (path in tests && tests[path].coverage))
  {
    FilterMembership(deps, (c: string) => c in contracts);
    var known := KnownDeps(deps, contracts);
    if exists c | c in deps :: c in contracts {
      var c :| c in deps && c in contracts;
      assert c in known;
    }
    if known != [] {
      assert known[0] in known;
    }
  }

  // ---------------------------------------------------------------------
  // _save_json and the next run

  /** A map's items in sorted key order, as `json.dump(sort_keys=True)`
      writes them. */
  function SortedItems<V>(m: map<string, V>): (items: Dict<string, V>)
    ensures ToMap(items) == m
    ensures forall i, j | 0 <= i < j < |items| :: Below(items[i].0, items[j].0)
  {
    var keys := Sorted(m.Keys);
    SortedDistinct(m.Keys);
    ItemsOfRoundTrip(m, keys);
    ItemsOf(m, keys)
  }

  /** `_save_json`: the document written at exit. Its `tx` section is the
      coverage the history holds at that time. */
  function SavedRecord(tests: map<string, Entry>, contracts: map<string, string>,
                       coverage: map<string, CoverageEval>): (c: Cache)
    ensures ToMap(c.tests) == tests && c.contracts == contracts && ToMap(c.tx) == coverage
  {
    Cache(SortedItems(tests), contracts, SortedItems(coverage))
  }

  /** A file system in which every readable file exists. */
  ghost predicate Coherent(env: Env)
  {
    forall p :: env.read(p).Some? ==> env.pathExists(p)
  }

  /** When every cached record is unchanged, the first filter keeps the
      whole dict. */
  lemma HashFilteredKeepsAll(pathExists: string -> bool, fingerprint: string -> Result<string, HashError>,
                             items: seq<(string, Entry)>)
    requires DistinctKeys(items)
    requires forall i | 0 <= i < |items| :: Unchanged(pathExists, fingerprint, items[i].0, items[i].1)
    ensures HashFiltered(pathExists, fingerprint, items) == Ok(ToMap(items))
  {
    HashFilteredSpec(pathExists, fingerprint, items);
    var all := ToMap(items);
    forall k | k in all
      ensures Unchanged(pathExists, fingerprint, k, all[k])
    {
      var i :| 0 <= i < |items| && items[i].0 == k;
    }
  }

  /** Saving and reloading with nothing changed in between is stable: every
      record whose fingerprint matches comes back unchanged, no contract
      counts as changed, and the saved coverage is handed back in full. */
  lemma SaveThenReload(env: Env, confFiles: seq<string>, tests: map<string, Entry>, contracts: map<string, string>,
                       coverage: map<string, CoverageEval>, build: map<string, BuildEntry>)
    requires Coherent(env)
    requires ConfHashes(AstHasher(env), confFiles).Ok?
    requires forall k | k in tests :: ModuleHash(env, ConfHashes(AstHasher(env), confFiles).value.Keys, k) == Ok(tests[k].sha1)
    requires CurrentContracts(build) == contracts
    ensures Reconcile(env, confFiles, Some(SavedRecord(tests, contracts, coverage)), build) ==
              Ok(Reconciled(ConfHashes(AstHasher(env), confFiles).value, tests, contracts, {}, SavedRecord(tests, contracts, coverage).tx))
  {
    var saved := SavedRecord(tests, contracts, coverage);
    var fingerprint := Fingerprinter(env, ConfHashes(AstHasher(env), confFiles).value.Keys);
    forall i | 0 <= i < |saved.tests|
      ensures Unchanged(env.pathExists, fingerprint, saved.tests[i].0, saved.tests[i].1)
    {
      var k := saved.tests[i].0;
      assert k in tests && tests[k] == saved.tests[i].1;
      assert ParseFile(env, k).Ok?;
    }
    HashFilteredKeepsAll(env.pathExists, fingerprint, saved.tests);
    assert ChangedContracts(contracts, contracts) == {};
  }

}
