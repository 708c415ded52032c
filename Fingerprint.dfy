/** Fingerprints of test modules: `get_ast_hash` and
    `UpdateManager._get_hash` of brownie/test/update.py.

    The outside world these functions touch is an `Env` value whose fields
    are functions: reading a file, `ast.parse`, `ast.dump`, the origin that
    `importlib.util.find_spec` reports for a module name, the project root
    that `check_for_project` returns, `Path.exists` and the hex sha1 digest
    of a string. Nothing about them is assumed beyond being functions, so
    every fact proved here holds for any file system and any hash. */
module Fingerprint {

  import opened Wrappers
  import opened Strings
  import opened Collections

  /** A top-level statement of a parsed module. Only the kinds that
      `get_ast_hash` tells apart are distinguished: `import a, b`,
      `from m import x` (with no module name for `from . import x`),
      statements with a nested body (def, class, if, try, ...) and the
      rest. The `node` fields hold the rest of the statement's syntax
      tree, which `get_ast_hash` never inspects but `ast.dump` writes out. */
  datatype Stmt =
    | Import(firstName: string, otherNames: seq<string>)
    | ImportFrom(moduleName: Option<string>, node: string)
    | Compound(node: string, children: seq<Stmt>)
    | Simple(node: string)

  /** What `ast.parse` returns: a module, i.e. its top-level statements. */
  datatype Tree = Tree(body: seq<Stmt>)

  datatype Env = Env(
    pathExists: string -> bool,            // Path(p).exists()
    read: string -> Option<string>,        // open(p).read(); None when it cannot be opened
    parse: string -> Option<Tree>,         // ast.parse(source); None on SyntaxError
    dump: Tree -> string,                  // ast.dump(tree)
    findOrigin: string -> Option<string>,  // importlib.util.find_spec(name).origin; None on failure
    projectRoot: string -> string,         // str(check_for_project(p))
    sha1: string -> string                 // sha1(s.encode()).hexdigest()
  )

  /** Why a fingerprint could not be computed; the source raises in each case. */
  datatype HashError =
    | Unreadable(path: string)
    | Unparseable(path: string)
    | Unresolvable(moduleName: Option<string>)

  /** Open a file and parse it. */
  function ParseFile(env: Env, path: string): (r: Result<Tree, HashError>)
    ensures r.Ok? <==> env.read(path).Some? && env.parse(env.read(path).value).Some?
    ensures r.Err? ==> !r.error.Unresolvable? && r.error.path == path
  {
    match env.read(path)
    case None => Err(Unreadable(path))
    case Some(source) =>
      match env.parse(source)
      case None => Err(Unparseable(path))
      case Some(tree) => Ok(tree)
  }

  /** The module names looked up for the top-level import statements, in
      order: the first name of an `import`, the module of a `from ... import`.
      Nested statements are not scanned. */
  function ImportTargets(body: seq<Stmt>): (targets: seq<Option<string>>)
  {
    if body == [] then []
    else
      match body[0]
      case Import(first, _) => [Some(first)] + ImportTargets(body[1..])
      case ImportFrom(m, _) => [m] + ImportTargets(body[1..])
      case Compound(_, _) => ImportTargets(body[1..])
      case Simple(_) => ImportTargets(body[1..])
  }

  /** Two bodies with the same statements at top level, except that the
      nested bodies of compound statements may differ. */
  ghost predicate SameTopLevel(b1: seq<Stmt>, b2: seq<Stmt>)
  {
    |b1| == |b2| &&
    forall i | 0 <= i < |b1| :: b1[i] == b2[i] || (b1[i].Compound? && b2[i].Compound?)
  }

  /** Only top-level statements are scanned: imports nested inside
      functions, classes or blocks never become dependencies. */
  lemma {:induction false} ImportTargetsTopLevelOnly(b1: seq<Stmt>, b2: seq<Stmt>)
    requires SameTopLevel(b1, b2)
    ensures ImportTargets(b1) == ImportTargets(b2)
  {
    if b1 != [] {
      assert SameTopLevel(b1[1..], b2[1..]) by {
        forall i | 0 <= i < |b1[1..]|
          ensures b1[1..][i] == b2[1..][i] || (b1[1..][i].Compound? && b2[1..][i].Compound?)
        {
          assert b1[1..][i] == b1[i + 1] && b2[1..][i] == b2[i + 1];
        }
      }
      ImportTargetsTopLevelOnly(b1[1..], b2[1..]);
    }
  }

  /** The dependency one import contributes: the parsed origin file when its
      path contains the project root, nothing for a module outside the
      project, an error when the module cannot be located or its file read. */
  function LocalDependency(env: Env, base: string, target: Option<string>): (r: Result<Option<Tree>, HashError>)
  {
    match target
    case None => Err(Unresolvable(None))
    case Some(name) =>
      match env.findOrigin(name)
      case None => Err(Unresolvable(target))
      case Some(origin) =>
        if !IsSubstring(base, origin) then Ok(None)
        else
          match ParseFile(env, origin)
          case Err(e) => Err(e)
          case Ok(tree) => Ok(Some(tree))
  }

  /** The loop of `get_ast_hash` over the import targets: the parsed local
      dependencies in import order, or the first error. */
  function LocalTrees(env: Env, base: string, targets: seq<Option<string>>): (r: Result<seq<Tree>, HashError>)
  {
    if targets == [] then Ok([])
    else
      match LocalDependency(env, base, targets[0])
      case Err(e) => Err(e)
      case Ok(dep) =>
        match LocalTrees(env, base, targets[1..])
        case Err(e) => Err(e)
        case Ok(rest) => Ok((if dep.Some? then [dep.value] else []) + rest)
  }

  function Dumps(env: Env, trees: seq<Tree>): (r: seq<string>)
    ensures |r| == |trees|
  {
    seq(|trees|, i requires 0 <= i < |trees| => env.dump(trees[i]))
  }

  /** `get_ast_hash(path)`: the sha1 of the newline-joined dumps of the file
      and of its local dependencies. */
  function AstHash(env: Env, path: string): (r: Result<string, HashError>)
  {
    match ParseFile(env, path)
    case Err(e) => Err(e)
    case Ok(tree) =>
      match LocalTrees(env, env.projectRoot(path), ImportTargets(tree.body))
      case Err(e) => Err(e)
      case Ok(deps) => Ok(env.sha1(JoinLines(Dumps(env, [tree] + deps))))
  }

  // ---------------------------------------------------------------------
  // A reference description of get_ast_hash, stated independently of the
  // loop: which imports must resolve, and which files are dumped.

  /** An import target that `get_ast_hash` gets past without raising. */
  ghost predicate Resolves(env: Env, base: string, target: Option<string>)
  {
    && target.Some?
    && env.findOrigin(target.value).Some?
    && (IsSubstring(base, env.findOrigin(target.value).value) ==>
          ParseFile(env, env.findOrigin(target.value).value).Ok?)
  }

  /** The origins of the targets whose path contains the project root, in
      import order. */
  ghost function LocalOrigins(env: Env, base: string, targets: seq<Option<string>>): seq<string>
  {
    if targets == [] then []
    else
      var rest := LocalOrigins(env, base, targets[1..]);
      if targets[0].Some? && env.findOrigin(targets[0].value).Some?
         && IsSubstring(base, env.findOrigin(targets[0].value).value)
      then [env.findOrigin(targets[0].value).value] + rest
      else rest
  }

  /** The dump of a file that parses. */
  ghost function FileDump(env: Env, path: string): string
  {
    match ParseFile(env, path)
    case Ok(tree) => env.dump(tree)
    case Err(_) => ""
  }

  lemma {:induction false} LocalTreesSpec(env: Env, base: string, targets: seq<Option<string>>)
    ensures LocalTrees(env, base, targets).Ok? <==>
              forall i | 0 <= i < |targets| :: Resolves(env, base, targets[i])
    ensures LocalTrees(env, base, targets).Ok? ==>
              var deps := LocalTrees(env, base, targets).value;
              var origins := LocalOrigins(env, base, targets);
              |deps| == |origins| &&
              forall i | 0 <= i < |deps| :: env.dump(deps[i]) == FileDump(env, origins[i])
  {
    if targets != [] {
      LocalTreesSpec(env, base, targets[1..]);
      assert forall i | 1 <= i < |targets| :: targets[i] == targets[1..][i - 1];
    }
  }

  /** Every top-level import of the parsed file at `path` resolves. */
  ghost predicate ImportsResolve(env: Env, path: string)
    requires ParseFile(env, path).Ok?
  {
    var targets := ImportTargets(ParseFile(env, path).value.body);
    forall i | 0 <= i < |targets| :: Resolves(env, env.projectRoot(path), targets[i])
  }

  /** The dumps of the local dependencies of the parsed file at `path`. */
  ghost function DependencyDumps(env: Env, path: string): seq<string>
    requires ParseFile(env, path).Ok?
  {
    var origins := LocalOrigins(env, env.projectRoot(path), ImportTargets(ParseFile(env, path).value.body));
    seq(|origins|, i requires 0 <= i < |origins| => FileDump(env, origins[i]))
  }

  /** `get_ast_hash` succeeds exactly when the file parses and every
      top-level import resolves (and parses, when local); its digest is
      over the dump of the file first, then the dumps of the local
      dependencies in import order, one per line. */
  lemma AstHashSpec(env: Env, path: string)
    ensures AstHash(env, path).Ok? <==> ParseFile(env, path).Ok? && ImportsResolve(env, path)
    ensures AstHash(env, path).Ok? ==>
              AstHash(env, path).value ==
                env.sha1(JoinLines([env.dump(ParseFile(env, path).value)] + DependencyDumps(env, path)))
  {
    if ParseFile(env, path).Ok? {
      var tree := ParseFile(env, path).value;
      var base := env.projectRoot(path);
      var targets := ImportTargets(tree.body);
      LocalTreesSpec(env, base, targets);
      if LocalTrees(env, base, targets).Ok? {
        var deps := LocalTrees(env, base, targets).value;
        assert Dumps(env, [tree] + deps) == [env.dump(tree)] + DependencyDumps(env, path);
      }
    }
  }

  // ---------------------------------------------------------------------
  // _get_hash

  /** The conftest paths `_get_hash` appends: those of `confs` that occur in
      `path` as a substring, each once, in the order of `confs`. */
  function FoldedConftests(confs: seq<string>, path: string): (r: seq<string>)
    ensures forall c | c in r :: c in confs && IsSubstring(c, path)
    ensures forall c | c in confs && IsSubstring(c, path) :: c in r
    ensures (forall i, j | 0 <= i < j < |confs| :: Below(confs[i], confs[j])) ==>
              forall i, j | 0 <= i < j < |r| :: Below(r[i], r[j])
  {
    var r := Filter(confs, c => IsSubstring(c, path));
    FilterMembership(confs, c => IsSubstring(c, path));
    if forall i, j | 0 <= i < j < |confs| :: Below(confs[i], confs[j]) then
      FilterOrdered(confs, c => IsSubstring(c, path), Below);
      r
    else
    r
  }

  /** `UpdateManager._get_hash(path)`: the sha1 of `get_ast_hash(path)`
      followed by the conftest paths (the keys of `conf_hashes`, sorted)
      that are substrings of `path`. The hashes stored under those keys are
      never read. */
  function ModuleHash(env: Env, confPaths: set<string>, path: string): (r: Result<string, HashError>)
    ensures r.Ok? <==> AstHash(env, path).Ok?
  {
    match AstHash(env, path)
    case Err(e) => Err(e)
    case Ok(h) => Ok(env.sha1(h + Concat(FoldedConftests(Sorted(confPaths), path))))
  }

  /** The text `_get_hash` digests: the module's AST hash, then every
      conftest path contained in `path`, each once, in sorted order. */
  lemma ModuleHashSpec(env: Env, confPaths: set<string>, path: string)
    ensures ModuleHash(env, confPaths, path).Ok? ==>
              exists folded: seq<string> ::
                && (forall c | c in folded :: c in confPaths && IsSubstring(c, path))
                && (forall c | c in confPaths && IsSubstring(c, path) :: c in folded)
                && (forall i, j | 0 <= i < j < |folded| :: Below(folded[i], folded[j]))
                && ModuleHash(env, confPaths, path).value == env.sha1(AstHash(env, path).value + Concat(folded))
  {
    if ModuleHash(env, confPaths, path).Ok? {
      var folded := FoldedConftests(Sorted(confPaths), path);
      assert ModuleHash(env, confPaths, path).value == env.sha1(AstHash(env, path).value + Concat(folded));
    }
  }

  /** Every conftest file is named `.../conftest.py`, so a conftest path can
      only be a substring of a path that itself contains that name: for an
      ordinary test module nothing is folded in, and its fingerprint is the
      digest of its AST hash alone, whatever the conftest files hold. */
  lemma ModuleHashWithoutConftestName(env: Env, confPaths: set<string>, path: string, name: string)
    requires forall c | c in confPaths :: IsSubstring(name, c)
    requires !IsSubstring(name, path)
    ensures ModuleHash(env, confPaths, path).Ok? ==>
              ModuleHash(env, confPaths, path).value == env.sha1(AstHash(env, path).value)
  {
    var folded := FoldedConftests(Sorted(confPaths), path);
    if folded != [] {
      SubstringTransitive(name, folded[0], path);
      assert false;
    }
    assert AstHash(env, path).Ok? ==> AstHash(env, path).value + Concat(folded) == AstHash(env, path).value;
  }

}
