/**
 * The read-only file system over the installed packages (packages/sandpack-bundler/src/FileSystem/RegistryFS.ts):
 * each package is a flat set of file keys, and directories are what their prefixes imply.
 */
module RegistryTree {
  import opened Wrappers
  import opened Strings
  import opened Paths
  import opened AbsolutePaths

  /** The file keys of each installed package. */
  type Modules = map<string, set<string>>

  datatype Parsed = Root | Scope(scope: string) | InModule(name: string, rel: string)

  datatype Kind = File | Dir | Missing

  datatype Errno = ENOENT | ENOTDIR

  function TrimLeading(s: string): string {
    if s != "" && s[0] == '/' then TrimLeading(s[1..]) else s
  }

  function ParsePath(path: string): Parsed {
    var trimmed := TrimTrailing(TrimLeading(path));
    if trimmed == "" then Root else ParseSegments(Split(trimmed))
  }

  function ParseSegments(segs: seq<string>): Parsed
    requires |segs| > 0
  {
    if "@" <= segs[0] then
      if |segs| == 1 then Scope(segs[0]) else InModule(segs[0] + "/" + segs[1], Join(segs[2..]))
    else InModule(segs[0], Join(segs[1..]))
  }

  predicate Inside(key: string, rel: string) {
    if rel == "" then |key| > 0 else rel + "/" <= key && |key| > |rel + "/"|
  }

  predicate IsDirPrefix(files: set<string>, rel: string) {
    exists key :: key in files && Inside(key, rel)
  }

  predicate ScopeHasModules(modules: Modules, scope: string) {
    exists name :: name in modules && scope + "/" <= name
  }

  function Classify(modules: Modules, path: string): Kind {
    match ParsePath(path)
    case Root => Dir
    case Scope(scope) => if ScopeHasModules(modules, scope) then Dir else Missing
    case InModule(name, rel) =>
      if name !in modules then Missing
      else if rel == "" then Dir
      else if rel in modules[name] then File
      else if IsDirPrefix(modules[name], rel) then Dir
      else Missing
  }

  function TopName(name: string): string {
    if "@" <= name then Split(name)[0] else name
  }

  function FirstPart(s: string): string {
    Split(s)[0]
  }

  function DirPrefix(rel: string): string {
    if rel == "" then "" else rel + "/"
  }

  /** The next segment of a key below `prefix`. */
  function NextPart(key: string, prefix: string): string
    requires prefix <= key
  {
    FirstPart(key[|prefix|..])
  }

  function Children(files: set<string>, prefix: string): set<string> {
    set key | key in files && prefix <= key && NextPart(key, prefix) != "" :: NextPart(key, prefix)
  }

  function Readdir(modules: Modules, path: string): Result<set<string>, Errno> {
    match Classify(modules, path)
    case Missing => Err(ENOENT)
    case File => Err(ENOTDIR)
    case Dir =>
      match ParsePath(path)
      case Root => Ok(set name | name in modules :: TopName(name))
      case Scope(scope) => Ok(set name | name in modules && scope + "/" <= name :: NextPart(name, scope + "/"))
      case InModule(name, rel) => Ok(if name in modules then Children(modules[name], DirPrefix(rel)) else {})
  }

  // ---- the loops -------------------------------------------------------------------------

  method HasDirPrefix(files: set<string>, rel: string) returns (found: bool)
    ensures found == IsDirPrefix(files, rel)
  {
    var left := files;
    while left != {}
      invariant left <= files && forall key :: key in files - left ==> !Inside(key, rel)
      decreases left
    {
      var key :| key in left;
      if Inside(key, rel) {
        return true;
      }
      left := left - {key};
    }
    found := false;
  }

  method ReaddirSync(modules: Modules, path: string) returns (names: Result<set<string>, Errno>)
    ensures names == Readdir(modules, path)
  {
    var kind := Classify(modules, path);
    if kind == Missing {
      return Err(ENOENT);
    }
    if kind == File {
      return Err(ENOTDIR);
    }
    var found: set<string> := {};
    match ParsePath(path) {
      case Root =>
        var left := modules.Keys;
        while left != {}
          invariant left <= modules.Keys && found == set name | name in modules.Keys - left :: TopName(name)
          decreases left
        {
          var name :| name in left;
          found, left := found + {TopName(name)}, left - {name};
        }
        assert found == set name | name in modules :: TopName(name);
      case Scope(scope) =>
        var left := modules.Keys;
        while left != {}
          invariant left <= modules.Keys
          invariant found == set name | name in modules.Keys - left && scope + "/" <= name :: NextPart(name, scope + "/")
          decreases left
        {
          var name :| name in left;
          if scope + "/" <= name {
            found := found + {NextPart(name, scope + "/")};
          }
          left := left - {name};
        }
        assert found == set name | name in modules && scope + "/" <= name :: NextPart(name, scope + "/");
      case InModule(name, rel) =>
        found := ReadModule(modules[name], DirPrefix(rel));
    }
    names := Ok(found);
  }

  method ReadModule(files: set<string>, prefix: string) returns (children: set<string>)
    ensures children == Children(files, prefix)
  {
    children := {};
    var left := files;
    while left != {}
      invariant left <= files && children == Children(files - left, prefix)
      decreases left
    {
      var key :| key in left;
      if prefix <= key && NextPart(key, prefix) != "" {
        children := children + {NextPart(key, prefix)};
      }
      left := left - {key};
    }
    assert files - left == files;
  }

  // ---- the tree ------------------------------------------------------------------------------

  predicate WellFormed(modules: Modules) {
    forall name :: name in modules ==>
      && PackageName(Split(name))
      && forall key :: key in modules[name] ==> Good(Split(key))
  }

  predicate PackageNode(modules: Modules, node: seq<string>) {
    PackageName(node) && Join(node) in modules
  }

  /** The path of a registered file. */
  predicate FileNode(modules: Modules, node: seq<string>) {
    && Good(node) && |node| > 0 && |node| > PackageLength(node)
    && var n := PackageLength(node);
       Join(node[..n]) in modules && Join(node[n..]) in modules[Join(node[..n])]
  }

  ghost predicate Below(modules: Modules, segs: seq<string>, node: seq<string>) {
    (PackageNode(modules, node) || FileNode(modules, node)) && segs <= node
  }

  ghost predicate Shown(modules: Modules, segs: seq<string>) {
    exists node :: Below(modules, segs, node)
  }

  lemma {:induction false} TrimJoined(segs: seq<string>)
    requires Good(segs) && segs != []
    ensures TrimTrailing(TrimLeading(Abs(segs))) == Join(segs) && Join(segs) != ""
  {
    JoinIsEmpty(segs);
    LastOfNormal(segs, Join(segs));
    assert Abs(segs)[1..] == Join(segs);
    assert Join(segs)[0] == segs[0][0];
    assert segs[0] in segs;
    assert TrimLeading(Join(segs)) == Join(segs);
  }

  lemma {:induction false} ParseAbs(segs: seq<string>)
    requires Good(segs)
    ensures ParsePath(Abs(segs)) == if segs == [] then Root else ParseSegments(segs)
  {
    if segs != [] {
      TrimJoined(segs);
      SplitJoin(segs);
    } else {
      assert TrimLeading("/") == TrimLeading("/"[1..]);
    }
  }

  /** A directory prefix of a key is a proper prefix of its segments. */
  lemma {:induction false} PrefixOfKey(r: seq<string>, k: seq<string>)
    requires r != [] && k != [] && SlashFree(r) && SlashFree(k)
    ensures Join(r) + "/" <= Join(k) <==> |r| < |k| && r <= k
    ensures Join(r) + "/" <= Join(k) ==> Join(k) == Join(r) + "/" + Join(k[|r|..])
  {
    if |r| < |k| && r <= k {
      assert k == r + k[|r|..];
      JoinConcat(r, k[|r|..]);
    }
    if Join(r) + "/" <= Join(k) {
      var tail := Join(k)[|Join(r) + "/"|..];
      assert Join(k) == Join(r) + "/" + tail;
      SplitConcat(Join(r), tail);
      SplitJoin(r);
      SplitJoin(k);
    }
  }

  // ---- classify and readdir, against the tree -----------------------------------------------------

  lemma {:induction false} KeySegments(modules: Modules, name: string, key: string)
    requires WellFormed(modules) && name in modules && key in modules[name]
    ensures PackageName(Split(name)) && Join(Split(name)) == name
    ensures Good(Split(key)) && Join(Split(key)) == key && key != ""
    ensures FileNode(modules, Split(name) + Split(key))
  {
    JoinSplit(name);
    JoinSplit(key);
    JoinIsEmpty(Split(key));
    var node := Split(name) + Split(key);
    GoodConcat(Split(name), Split(key));
    var n := |Split(name)|;
    assert node[..n] == Split(name) && node[n..] == Split(key);
  }

  lemma {:induction false} PackageSegments(modules: Modules, name: string)
    requires WellFormed(modules) && name in modules
    ensures PackageNode(modules, Split(name)) && Join(Split(name)) == name
  {
    JoinSplit(name);
  }

  /** Where a path of at least a package's length lies. */
  lemma {:induction false} ParseLong(segs: seq<string>)
    requires Good(segs) && segs != [] && |segs| >= PackageLength(segs)
    ensures var n := PackageLength(segs); ParseSegments(segs) == InModule(Join(segs[..n]), Join(segs[n..]))
  {
  }

  lemma {:induction false} ClassifyFile(modules: Modules, segs: seq<string>)
    requires Good(segs)
    ensures Classify(modules, Abs(segs)) == File <==> FileNode(modules, segs)
  {
    ParseAbs(segs);
    if segs != [] && |segs| >= PackageLength(segs) {
      ParseLong(segs);
      var n := PackageLength(segs);
      GoodConcat(segs[..n], segs[n..]);
      assert segs == segs[..n] + segs[n..];
      JoinIsEmpty(segs[n..]);
    }
  }

  /** A path exists exactly when it is the root or lies on the way to a package or a file. */
  lemma {:induction false} ClassifyIsShown(modules: Modules, segs: seq<string>)
    requires WellFormed(modules) && Good(segs) && segs != []
    ensures Classify(modules, Abs(segs)) != Missing <==> Shown(modules, segs)
  {
    ParseAbs(segs);
    if |segs| < PackageLength(segs) {
      ScopeIsShown(modules, segs);
    } else {
      ParseLong(segs);
      ModuleIsShown(modules, segs);
    }
  }

  lemma {:induction false} ScopePrefix(scope: string, name: seq<string>)
    requires PackageName(name) && '/' !in scope && scope != ""
    ensures scope + "/" <= Join(name) <==> |name| == 2 && name[0] == scope
    ensures scope + "/" <= Join(name) ==> NextPart(Join(name), scope + "/") == name[1]
  {
    PrefixOfKey([scope], name);
    assert Join([scope]) == scope;
    if |name| == 2 && name[0] == scope {
      assert [scope] <= name;
      assert name[1..] == [name[1]];
      SplitSlashFree(name[1]);
      assert Join(name)[|scope + "/"|..] == name[1];
    }
  }

  lemma {:induction false} ScopeIsShown(modules: Modules, segs: seq<string>)
    requires WellFormed(modules) && Good(segs) && |segs| == 1 && "@" <= segs[0]
    ensures ScopeHasModules(modules, segs[0]) <==> Shown(modules, segs)
  {
    if ScopeHasModules(modules, segs[0]) {
      var name :| name in modules && segs[0] + "/" <= name;
      PackageSegments(modules, name);
      ScopePrefix(segs[0], Split(name));
      assert Below(modules, segs, Split(name));
    }
    if Shown(modules, segs) {
      var node :| Below(modules, segs, node);
      var name := node[..2];
      GoodConcat(name, node[2..]);
      assert node == name + node[2..];
      PackageIn(modules, node);
      ScopePrefix(segs[0], name);
    }
  }

  /** The package a node lies in is registered. */
  lemma {:induction false} PackageIn(modules: Modules, node: seq<string>)
    requires PackageNode(modules, node) || FileNode(modules, node)
    ensures |node| >= PackageLength(node) && PackageName(node[..PackageLength(node)])
    ensures Join(node[..PackageLength(node)]) in modules
  {
    var n := PackageLength(node);
    assert node == node[..n] + node[n..];
    GoodConcat(node[..n], node[n..]);
    if |node| == n { assert node[..n] == node; }
  }

  predicate ModuleShows(modules: Modules, name: string, rel: string) {
    name in modules && (rel == "" || rel in modules[name] || IsDirPrefix(modules[name], rel))
  }

  lemma {:induction false} ModuleIsShown(modules: Modules, segs: seq<string>)
    requires WellFormed(modules) && Good(segs) && segs != [] && |segs| >= PackageLength(segs)
    ensures var n := PackageLength(segs);
            ModuleShows(modules, Join(segs[..n]), Join(segs[n..])) <==> Shown(modules, segs)
  {
    var n := PackageLength(segs);
    if ModuleShows(modules, Join(segs[..n]), Join(segs[n..])) {
      ShownBelow(modules, segs);
    }
    if Shown(modules, segs) {
      var node :| Below(modules, segs, node);
      NodeShows(modules, segs, node);
    }
  }

  lemma {:induction false} ShownBelow(modules: Modules, segs: seq<string>)
    requires WellFormed(modules) && Good(segs) && segs != [] && |segs| >= PackageLength(segs)
    requires var n := PackageLength(segs); ModuleShows(modules, Join(segs[..n]), Join(segs[n..]))
    ensures Shown(modules, segs)
  {
    var n := PackageLength(segs);
    var name, r := Join(segs[..n]), segs[n..];
    assert segs == segs[..n] + r;
    GoodConcat(segs[..n], r);
    JoinIsEmpty(r);
    if r == [] || Join(r) in modules[name] {
      assert segs[..n] == segs || r != [];
      assert Below(modules, segs, segs);
    } else {
      var key :| key in modules[name] && Inside(key, Join(r));
      KeySegments(modules, name, key);
      PrefixOfKey(r, Split(key));
      SplitJoin(segs[..n]);
      assert segs <= segs[..n] + Split(key);
      assert Below(modules, segs, Split(name) + Split(key));
    }
  }

  lemma {:induction false} NodeShows(modules: Modules, segs: seq<string>, node: seq<string>)
    requires Good(segs) && segs != [] && |segs| >= PackageLength(segs) && Below(modules, segs, node)
    ensures var n := PackageLength(segs); ModuleShows(modules, Join(segs[..n]), Join(segs[n..]))
  {
    var n := PackageLength(segs);
    PackageIn(modules, node);
    assert node[..n] == segs[..n];
    if |segs| > n {
      var r, k := segs[n..], node[n..];
      assert FileNode(modules, node);
      assert segs == segs[..n] + r && node == node[..n] + k;
      GoodConcat(segs[..n], r);
      GoodConcat(node[..n], k);
      if |node| == |segs| {
        assert r == k;
      } else {
        LongerKey(r, k);
        assert Inside(Join(k), Join(r));
      }
    }
  }

  lemma {:induction false} LongerKey(r: seq<string>, k: seq<string>)
    requires Good(r) && Good(k) && r != [] && |r| < |k| && r <= k
    ensures Inside(Join(k), Join(r))
  {
    PrefixOfKey(r, k);
    assert k == r + k[|r|..];
    GoodConcat(r, k[|r|..]);
    JoinIsEmpty(k[|r|..]);
    JoinIsEmpty(r);
  }

  // ---- readdir -------------------------------------------------------------------------------------

  /** A child on the way to a package or a file. */
  ghost predicate Child(modules: Modules, segs: seq<string>, name: string) {
    Shown(modules, segs + [name])
  }

  lemma {:induction false} RootChildren(modules: Modules, name: string)
    requires WellFormed(modules)
    ensures Child(modules, [], name) <==> exists pkg :: pkg in modules && TopName(pkg) == name
  {
    assert [] + [name] == [name];
    if pkg :| pkg in modules && TopName(pkg) == name {
      PackageSegments(modules, pkg);
      TopOf(Split(pkg));
      assert Below(modules, [name], Split(pkg));
    }
    if Shown(modules, [name]) {
      var node :| Below(modules, [name], node);
      PackageIn(modules, node);
      TopOf(node[..PackageLength(node)]);
    }
  }

  lemma {:induction false} TopOf(pkg: seq<string>)
    requires PackageName(pkg)
    ensures TopName(Join(pkg)) == pkg[0]
  {
    SplitJoin(pkg);
    if |pkg| == 2 {
      assert Join(pkg)[0] == pkg[0][0];
    }
  }

  lemma {:induction false} ScopeChildren(modules: Modules, scope: string, name: string)
    requires WellFormed(modules) && Good([scope]) && "@" <= scope
    ensures Child(modules, [scope], name) <==>
            exists pkg :: pkg in modules && scope + "/" <= pkg && NextPart(pkg, scope + "/") == name
  {
    assert scope in [scope];
    assert [scope] + [name] == [scope, name];
    if pkg :| pkg in modules && scope + "/" <= pkg && NextPart(pkg, scope + "/") == name {
      PackageSegments(modules, pkg);
      ScopePrefix(scope, Split(pkg));
      assert Below(modules, [scope, name], Split(pkg));
    }
    if Shown(modules, [scope, name]) {
      var node :| Below(modules, [scope, name], node);
      PackageIn(modules, node);
      ScopePrefix(scope, node[..2]);
      assert node[..2] == [scope, name];
    }
  }

  lemma {:induction false} NextOfKey(r: seq<string>, k: seq<string>)
    requires Good(r) && Good(k) && k != []
    ensures DirPrefix(Join(r)) <= Join(k) <==> |r| < |k| && r <= k
    ensures DirPrefix(Join(r)) <= Join(k) ==> NextPart(Join(k), DirPrefix(Join(r))) == k[|r|] && k[|r|] != ""
  {
    JoinIsEmpty(r);
    SplitJoin(k);
    if r == [] {
      assert Join(k)[0..] == Join(k);
    } else {
      PrefixOfKey(r, k);
      if |r| < |k| && r <= k {
        var rest := k[|r|..];
        assert k == r + rest;
        GoodConcat(r, rest);
        SplitJoin(rest);
        assert Join(k)[|DirPrefix(Join(r))|..] == Join(rest);
      }
    }
  }

  lemma {:induction false} ModuleChildren(modules: Modules, segs: seq<string>, name: string)
    requires WellFormed(modules) && Good(segs) && segs != [] && |segs| >= PackageLength(segs)
    requires Join(segs[..PackageLength(segs)]) in modules
    ensures var n := PackageLength(segs);
            Child(modules, segs, name) <==> name in Children(modules[Join(segs[..n])], DirPrefix(Join(segs[n..])))
  {
    var n := PackageLength(segs);
    var pkg, r := Join(segs[..n]), segs[n..];
    assert segs == segs[..n] + r;
    GoodConcat(segs[..n], r);
    if name in Children(modules[pkg], DirPrefix(Join(r))) {
      var key :| key in modules[pkg] && DirPrefix(Join(r)) <= key && NextPart(key, DirPrefix(Join(r))) == name;
      KeySegments(modules, pkg, key);
      NextOfKey(r, Split(key));
      SplitJoin(segs[..n]);
      ChildOfKey(segs, n, Split(key), name);
      assert Below(modules, segs + [name], Split(pkg) + Split(key));
    }
    if Shown(modules, segs + [name]) {
      var node :| Below(modules, segs + [name], node);
      ChildOfNode(modules, segs, name, node);
    }
  }

  lemma {:induction false} ChildOfKey(segs: seq<string>, n: nat, k: seq<string>, name: string)
    requires n <= |segs| && |segs[n..]| < |k| && segs[n..] <= k && k[|segs[n..]|] == name
    ensures segs + [name] <= segs[..n] + k
  {
  }

  lemma {:induction false} ChildOfNode(modules: Modules, segs: seq<string>, name: string, node: seq<string>)
    requires Good(segs) && segs != [] && |segs| >= PackageLength(segs) && Below(modules, segs + [name], node)
    requires Join(segs[..PackageLength(segs)]) in modules
    ensures var n := PackageLength(segs);
            name in Children(modules[Join(segs[..n])], DirPrefix(Join(segs[n..])))
  {
    var n := PackageLength(segs);
    PackageIn(modules, node);
    assert node[0] == segs[0] && node[..n] == segs[..n];
    var r, k := segs[n..], node[n..];
    assert segs == segs[..n] + r && node == node[..n] + k;
    GoodConcat(segs[..n], r);
    GoodConcat(node[..n], k);
    assert r <= k && |r| < |k| && k[|r|] == name;
    NextOfKey(r, k);
  }

  /** `readdir` of a directory lists exactly the children that lead somewhere. */
  lemma {:induction false} ReaddirIsChildren(modules: Modules, segs: seq<string>, name: string)
    requires WellFormed(modules) && Good(segs) && Readdir(modules, Abs(segs)).Ok?
    ensures name in Readdir(modules, Abs(segs)).value <==> Child(modules, segs, name)
  {
    ParseAbs(segs);
    if segs == [] {
      RootChildren(modules, name);
    } else if |segs| < PackageLength(segs) {
      assert segs == [segs[0]];
      ScopeChildren(modules, segs[0], name);
    } else {
      ParseLong(segs);
      ModuleChildren(modules, segs, name);
    }
  }

  /** A name is listed in a directory exactly when the path below it exists. */
  lemma {:induction false} ListedIffExists(modules: Modules, segs: seq<string>, name: string)
    requires WellFormed(modules) && Good(segs) && OrdinarySegment(name) && '/' !in name
    requires Classify(modules, Abs(segs)) == Dir
    ensures Readdir(modules, Abs(segs)).Ok?
    ensures name in Readdir(modules, Abs(segs)).value <==> Classify(modules, Abs(segs + [name])) != Missing
  {
    GoodConcat(segs, [name]);
    ReaddirIsChildren(modules, segs, name);
    ClassifyIsShown(modules, segs + [name]);
  }

  // ---- the walk ------------------------------------------------------------------------------------------

  /** No file key is a directory of another. */
  predicate PrefixFree(modules: Modules) {
    forall name, a, b :: name in modules && a in modules[name] && b in modules[name] ==> !(a + "/" <= b)
  }

  /** Reading directories from the root down leads to `segs`. */
  predicate Visited(modules: Modules, segs: seq<string>) {
    forall k :: 0 <= k < |segs| ==> Steps(modules, segs[..k], segs[k])
  }

  predicate Steps(modules: Modules, segs: seq<string>, name: string) {
    Readdir(modules, Abs(segs)).Ok? && name in Readdir(modules, Abs(segs)).value
  }

  lemma {:induction false} OnTheWay(modules: Modules, node: seq<string>, k: nat)
    requires WellFormed(modules) && PrefixFree(modules) && FileNode(modules, node) && k < |node|
    ensures Classify(modules, Abs(node[..k])) == Dir && Good(node[..k])
  {
    assert node == node[..k] + node[k..];
    GoodConcat(node[..k], node[k..]);
    if k == 0 {
      ParseAbs(node[..k]);
    } else {
      assert Below(modules, node[..k], node);
      ClassifyIsShown(modules, node[..k]);
      ClassifyFile(modules, node[..k]);
      if FileNode(modules, node[..k]) {
        NoFileAbove(modules, node, k);
      }
    }
  }

  lemma {:induction false} NoFileAbove(modules: Modules, node: seq<string>, k: nat)
    requires PrefixFree(modules) && FileNode(modules, node) && 0 < k < |node|
    ensures !FileNode(modules, node[..k])
  {
    var n := PackageLength(node);
    if FileNode(modules, node[..k]) {
      var r, full := node[..k][n..], node[n..];
      assert node[..k][..n] == node[..n];
      assert node == node[..n] + full && node[..k] == node[..n] + r;
      GoodConcat(node[..n], full);
      GoodConcat(node[..n], r);
      PrefixOfKey(r, full);
    }
  }

  lemma {:induction false} StepOnTheWay(modules: Modules, node: seq<string>, k: nat)
    requires WellFormed(modules) && PrefixFree(modules) && FileNode(modules, node) && k < |node|
    ensures Steps(modules, node[..k], node[k])
  {
    OnTheWay(modules, node, k);
    assert node[..k] + [node[k]] == node[..k + 1];
    assert Below(modules, node[..k + 1], node);
    ReaddirIsChildren(modules, node[..k], node[k]);
  }

  /** A walk from the root reaches exactly the registered files. */
  lemma {:induction false} WalkVisitsFiles(modules: Modules, segs: seq<string>)
    requires WellFormed(modules) && PrefixFree(modules) && Good(segs)
    ensures Visited(modules, segs) && Classify(modules, Abs(segs)) == File <==> FileNode(modules, segs)
  {
    ClassifyFile(modules, segs);
    if FileNode(modules, segs) {
      forall k | 0 <= k < |segs| ensures Steps(modules, segs[..k], segs[k]) {
        StepOnTheWay(modules, segs, k);
      }
    }
  }

  /** The key that continues `rel` with `tail`. */
  function Continued(rel: string, tail: string): string {
    if rel == "" then tail else rel + "/" + tail
  }

  /** A directory prefix is exactly what some key continues, behind a slash unless it is the root. */
  lemma {:induction false} DirPrefixMeans(files: set<string>, rel: string)
    ensures IsDirPrefix(files, rel) <==> exists tail :: tail != "" && Continued(rel, tail) in files
  {
    if key :| key in files && Inside(key, rel) {
      var tail := if rel == "" then key else key[|rel + "/"|..];
      assert key == Continued(rel, tail);
    }
    forall tail | tail != "" && Continued(rel, tail) in files ensures IsDirPrefix(files, rel) {
      assert Inside(Continued(rel, tail), rel);
    }
  }
}
