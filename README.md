# Incremental test selection of brownie's test runner

This project models `brownie/test/update.py`, the cache that lets brownie's
test runner skip test modules whose result cannot have changed since the
previous run. It proves properties of that model. The model has four parts:

- **Module fingerprints** (`Fingerprint.dfy`). `get_ast_hash` parses a file
  and scans its top-level imports. It parses each imported module whose
  origin path contains the project root's path. This is a substring test,
  so a sibling directory such as `proj-old` next to `proj` also counts.
  It hashes the newline-joined AST dumps.
  `UpdateManager._get_hash` re-hashes that digest after appending the
  conftest paths that occur in the module's path.
- **Reconciliation at start-up** (`Cache.dfy`, `Reconcile`).
  `UpdateManager.__init__` does the following:
  - It hashes every conftest file.
  - It loads the JSON cache and keeps the test records of modules that
    still exist with an unchanged fingerprint.
  - It computes the current contract hashes from the build and the set of
    changed contracts.
  - If some contract changed, it keeps only the isolated records that
    depend on no changed contract, and hands back to the coverage history
    only the transactions whose coverage touches no changed contract.
  - Otherwise it hands back every cached transaction.
- **Skip query and post-run record** (`Cache.dfy`, `Update.dfy`).
  `check_updated` answers from the stored record alone. `finish_module`
  overwrites one module's record with these fields:
  - its fresh fingerprint;
  - the dependencies that are current contracts, or `False` when the
    module is not isolated;
  - a coverage flag that, once set, stays set;
  - the transaction hashes of the run.
- **The saved document** (`Cache.dfy`, `SavedRecord`). `_save_json` writes
  `tests`, `contracts` and `tx` with sorted keys. Reloading that document
  with nothing changed gives back the same state (`SaveThenReload`).

`UpdateManager` is a class (`Update.dfy`) whose `tests` and `isolated`
fields change in place. `__init__` becomes the static method `Open`. Its
loops are the methods `HashConftests`, `DropStale` and `FeedCoverage`. The
list comprehension of `finish_module` is the method `KnownDependencies`.
Each of these methods is proved equal to the pure function that specifies
it in `Cache.dfy`, and the properties are proved about those functions.

The world outside the module is an `Env` value made of functions:

- reading a file;
- `ast.parse` and `ast.dump`;
- the origin `importlib.util.find_spec` reports;
- `check_for_project`;
- `Path.exists`;
- the sha1 hex digest.

Every fact is proved for all such functions. A file that cannot be read, a
syntax error and an import that cannot be located all make the source raise.
They are modelled as `Err(HashError)` results, and `__init__` then fails
with the same error.

The class invariant `Valid` says that every record the manager holds carries
its module's fingerprint, computed over the file system the manager was
opened with. It holds after `Open` and after every `FinishModule`. Since that
file system is fixed for the manager's lifetime, the invariant shows that
`check_updated` answers correctly without hashing, provided no file changes
during the run. The source does not re-hash either, so a module edited after
`__init__` would still be skipped; the model cannot express such an edit.

### Behaviour that may be unexpected

The model follows the code in each case below.

- **The changed-contract set comes from the cached side.** The code
  collects the cached contracts that are missing from the current contracts
  or whose hash differs. So these contracts count as changed:
  - a contract that vanished from the build;
  - a contract whose bytecode became empty.

  A contract that is new in this build never counts as changed. A reader
  might expect the reverse: that a new contract counts as changed and a
  vanished one does not. `Cache.ChangedContractsSpec` states the code's
  rule.
- **Conftest paths, not conftest hashes, are folded into a fingerprint.**
  `_get_hash` appends each conftest path that is a substring of the
  module's path, and never reads `conf_hashes`' values. A conftest path ends
  in `conftest.py`, so for an ordinary test module nothing is appended.
  Such a fingerprint does not depend on any conftest file's content
  (`Fingerprint.ModuleHashWithoutConftestName`). Even so, a conftest file
  that cannot be parsed still makes `__init__` raise.
- **`check_updated` does not re-hash.** It looks only at the stored record.
  Its freshness comes from the filtering in `__init__` (`Valid`), and
  holds only while no file changes during the run.
- **An isolated record with an empty dependency list** survives the
  changed-contract filter, but it is never skippable, because `[]` is
  falsy (`Cache.Truthy`).
- **The isolation dependencies are a list**, in the order the history
  reports them, with repeats kept. They are not a set.

## Model

| member | source | states |
|---|---|---|
| Fingerprint.ParseFile | brownie/test/update.py:24-25 | reading and parsing succeed exactly when the file can be read and its text parses; a failure names the path |
| Fingerprint.ImportTargetsTopLevelOnly | brownie/test/update.py:27-31 | only top-level import statements are scanned: bodies that differ only inside nested statements give the same import targets |
| Fingerprint.LocalTreesSpec | brownie/test/update.py:27-35 | the import loop succeeds exactly when every target resolves (and parses when local); its trees are those of the origins whose path contains the project root, in import order |
| Fingerprint.AstHashSpec | brownie/test/update.py:17-37 | `get_ast_hash` succeeds exactly when the file parses and every top-level import resolves; the digest is over the file's dump, then the local dependencies' dumps, newline-joined |
| Fingerprint.FoldedConftests | brownie/test/update.py:81 | the appended conftest paths are exactly those that are substrings of the module path, kept in the sorted order |
| Strings.Sorted | brownie/test/update.py:81 | `sorted` of the conftest paths lists every path exactly once, in strictly increasing string order |
| Fingerprint.ModuleHash | brownie/test/update.py:79-83 | `_get_hash` fails exactly when `get_ast_hash` fails |
| Fingerprint.ModuleHashSpec | brownie/test/update.py:79-83 | the fingerprint is the digest of the AST hash followed by every conftest path that occurs in the module path, each once, in sorted order |
| Fingerprint.ModuleHashWithoutConftestName | brownie/test/update.py:79-83 | a module whose path does not contain the conftest file name gets the digest of its AST hash alone, whatever the conftest files contain |
| Cache.ConfHashes | brownie/test/update.py:44-46 | `conf_hashes` has exactly the conftest paths as keys |
| Cache.ConfHashesSpec | brownie/test/update.py:44-46 | hashing the conftest files fails exactly when some file fails to hash; each path maps to its own AST hash |
| Cache.HashFilteredSpec | brownie/test/update.py:53-56 | the first test filter raises exactly when an existing module cannot be hashed; it keeps exactly the cached records, unchanged, of existing modules whose fingerprint matches |
| Cache.ColdStart | brownie/test/update.py:47-51 | with a missing or malformed cache file nothing is retained, no contract is changed and no coverage is fed |
| Cache.CurrentContractsSpec | brownie/test/update.py:57 | the current contracts are exactly the built contracts with non-empty bytecode, mapped to their bytecode hash |
| Cache.ChangedContractsSpec | brownie/test/update.py:58-61 | a contract is changed exactly when it is cached and is now missing, has no bytecode, or has a different hash; an uncached contract never is |
| Cache.ReconcileTests | brownie/test/update.py:53-69 | every retained record is a cached, unchanged record of an existing module with a matching fingerprint; with no change all of these are retained, otherwise exactly the isolated ones whose dependencies avoid the changed set |
| Cache.ReconcileCoverage | brownie/test/update.py:62-72 | the coverage records fed to the history are cache records in cache order, each once: all of them when nothing changed, otherwise exactly those whose contracts avoid the changed set |
| Cache.RefedNothingChanged | brownie/test/update.py:62-72 | filtering the coverage records by an empty changed set keeps them all, so both branches agree when nothing changed |
| Cache.KnownDepsSpec | brownie/test/update.py:97 | the recorded dependencies are the run's dependencies that are current contracts, each kept, in order |
| Cache.CoverageSticky | brownie/test/update.py:101 | the recorded coverage flag is set exactly when this run collects coverage or the previous record had it |
| Cache.RecordThenSkip | brownie/test/update.py:85-103 | right after recording, a module is skippable exactly when it was marked isolated, touched a current contract, and coverage is not required or is recorded |
| Cache.SortedItems | brownie/test/update.py:105-112 | the items of a map, written in strictly increasing key order as `sort_keys=True` writes them, read back as the same map |
| Cache.SavedRecord | brownie/test/update.py:105-112 | the saved document's `tests`, `contracts` and `tx` read back as the manager's tests, contracts and the history's coverage |
| Cache.SaveThenReload | brownie/test/update.py:42-74 | reloading a saved document with unchanged files and build retains every record, finds no changed contract and feeds back all saved coverage |
| Update.UpdateManager.Open | brownie/test/update.py:42-74 | `__init__` raises exactly when the reconciliation does, with the same error; otherwise the new manager holds exactly the reconciled state, satisfies `Valid`, and has fed exactly the reconciled coverage |
| Update.UpdateManager.SetIsolated | brownie/test/update.py:76-77 | `set_isolated` stores the isolated paths and changes nothing else |
| Update.UpdateManager.CheckUpdated | brownie/test/update.py:85-91 | a module is skippable exactly when it has a record that is isolated with a non-empty dependency list and, in a coverage run, has coverage (`Skippable`, so `RecordThenSkip` applies to it); such a record carries the module's fingerprint over the manager's file system |
| Update.UpdateManager.FinishModule | brownie/test/update.py:93-103 | only the module's own record changes, and it becomes the recorded entry; when the module cannot be hashed nothing changes; `Valid` is preserved |
| Update.HashConftests | brownie/test/update.py:44-46 | the loop builds exactly `ConfHashes` of the conftest files, stopping at the first error |
| Update.DropStale | brownie/test/update.py:53-56 | the loop builds exactly the first test filter, stopping at the first hashing error |
| Update.FeedCoverage | brownie/test/update.py:62-72 | the calls to `history.add_coverage` are exactly the filtered records when a contract changed, and all records otherwise |
| Update.KnownDependencies | brownie/test/update.py:97 | the list comprehension computes exactly the known dependencies |
| Update.SkipAfterOpen | brownie/test/update.py:85-91 | a module that a freshly opened manager lets be skipped exists, still has its cached fingerprint, is isolated with dependencies, has coverage if required, and depends on no changed contract |

## Left out

- `brownie/network/rpc/hardhat.py` is not part of this model. It only starts
  a node process and forwards RPC calls.
- File I/O, `ast`, `importlib`, `check_for_project` and `hashlib` are
  modelled as the functions of an `Env` value. No property of real sha1,
  of Python's parser or of the import system is assumed.
- Open: reading and decoding the cache file is the `loaded` input. `None`
  stands for a missing file or invalid JSON. Valid JSON of the wrong shape,
  which raises `KeyError` or `TypeError` in the source, is not modelled.
  Neither are other errors from `open`.
- `atexit.register(self._save_json)` and writing the file are left out.
  Only the shape of the written document is modelled (`SavedRecord`).
- The glob for `tests/**/conftest.py` is the `confFiles` input, in glob
  order.
- The coverage history singleton is not modelled as state. The calls to
  `history.add_coverage` are the ghost log `coverageFed`. The results of
  `get_coverage_hashes`, `get_coverage` and `_ContractHistory().dependencies()`
  are parameters.
- `ARGV['coverage']` is the `coverageMode` parameter.
- Coverage evaluation data is kept abstract as `map<string, seq<nat>>`.
- `check_for_project` returning `None` is not distinguished. The project
  root is whatever string the environment gives, which includes the string
  `"None"`.
- `str(path)` conversions are the identity on strings.
- `conf_hashes` is keyed by `str(i.absolute())` but hashes the glob path
  `i`. The model uses one string for both: `confFiles` stands for the
  absolute paths, and `get_ast_hash` is taken to give the same answer for
  both spellings of a path.
- The file system is fixed for a manager's lifetime: `env` is set at `Open`.
  A module edited between `__init__` and `check_updated` is not modelled.
  The source would skip it on its stale record, because `check_updated`
  never re-hashes.
- A relative `from . import x` gives `find_spec(None)`, which raises. It is
  modelled as `Unresolvable(None)` and not further distinguished.
- FinishModule: an exception from `get_ast_hash` is returned as an error
  value instead of propagating. The isolation list is computed first, as in
  the source. Calling `finish_module` before `set_isolated` raises
  `AttributeError` in the source, because `self.isolated` is unset. That
  error path is not modelled: the precondition `isolated.Some?` excludes it.
