/**
 * The alias table of a package.json (packages/sandpack-bundler/src/resolver/utils/pkg-json.ts,
 * exports.ts and alias.ts). JavaScript arrays are objects, so both are `Composite`, with their
 * fields in the order `Object.keys` lists them. `None` stands for a thrown error.
 */
module PackageJson {
  import opened Wrappers
  import opened Paths

  datatype Json =
    | Null
    | Bool(b: bool)
    | Number(n: int)
    | Str(s: string)
    | Composite(isArray: bool, fields: seq<(string, Json)>)

  type Aliases = map<string, string>

  const EMPTY_SHIM := "/empty.js"
  const MAIN_FIELDS := ["module", "browser", "main", "jsnext:main"]
  const EXPORTS_KEYS := ["browser", "development", "default", "require", "import"]

  predicate Falsy(v: Json) {
    v == Null || v == Bool(false) || v == Number(0) || v == Str("")
  }

  /** `object[key]`; `None` is `undefined`. */
  function Field(fields: seq<(string, Json)>, key: string): (v: Option<Json>)
    ensures v.Some? ==> exists i :: 0 <= i < |fields| && fields[i].1 == v.value
  {
    if |fields| == 0 then None
    else if fields[0].0 == key then Some(fields[0].1)
    else
      var v := Field(fields[1..], key);
      assert v.Some? ==> forall i :: 0 <= i < |fields[1..]| ==> fields[1..][i] == fields[i + 1];
      v
  }

  function NormalizeAlias(specifier: string, pkgRoot: string, isFilePath: bool): string {
    if IsAbsolute(specifier) then specifier
    else if isFilePath || "." <= specifier then Join2(pkgRoot, specifier)
    else specifier
  }

  // ---- exports ---------------------------------------------------------------------

  // Every star becomes the text `$1`.
  function StarsToCapture(s: string): string {
    if s == "" then "" else (if s[0] == '*' then "$1" else [s[0]]) + StarsToCapture(s[1..])
  }

  /** `extractPathFromExport`: a path, `false`, or an error for an unsupported value. */
  function ExtractPath(v: Json, pkgRoot: string): Option<Option<string>>
    decreases v
  {
    if Falsy(v) then Some(None)
    else
      match v
      case Str(s) => Some(Some(NormalizeAlias(StarsToCapture(s), pkgRoot, true)))
      case Composite(isArray, fields) =>
        if isArray then FirstPath(v, 0, pkgRoot) else ByCondition(v, 0, pkgRoot)
      case _ => None
  }

  /** The first usable element of an array from `i` on; every element is evaluated. */
  function FirstPath(v: Json, i: nat, pkgRoot: string): Option<Option<string>>
    requires v.Composite? && i <= |v.fields|
    decreases v, |v.fields| - i
  {
    if i == |v.fields| then Some(None)
    else
      match (ExtractPath(v.fields[i].1, pkgRoot), FirstPath(v, i + 1, pkgRoot))
      case (Some(path), Some(later)) => Some(if path.Some? && path.value != "" then path else later)
      case _ => None
  }

  /** The first condition, in priority order from `k` on, that the object has. */
  function ByCondition(v: Json, k: nat, pkgRoot: string): Option<Option<string>>
    requires v.Composite? && k <= |EXPORTS_KEYS|
    decreases v, |EXPORTS_KEYS| - k
  {
    if k == |EXPORTS_KEYS| then Some(None)
    else
      match Field(v.fields, EXPORTS_KEYS[k])
      case None => ByCondition(v, k + 1, pkgRoot)
      case Some(chosen) =>
        if chosen.Str? then Some(Some(NormalizeAlias(StarsToCapture(chosen.s), pkgRoot, true)))
        else ExtractPath(chosen, pkgRoot)
  }

  function AddExports(aliases: Aliases, fields: seq<(string, Json)>, pkgRoot: string): Option<Aliases>
    decreases |fields|
  {
    if |fields| == 0 then Some(aliases)
    else
      match ExtractPath(fields[0].1, pkgRoot)
      case None => None
      case Some(path) =>
        var target := if path.Some? && path.value != "" then path.value else EMPTY_SHIM;
        AddExports(aliases[NormalizeAlias(fields[0].0, pkgRoot, true) := target], fields[1..], pkgRoot)
  }

  // ---- browser and alias ----------------------------------------------------------------

  /** `aliasField[key] || EMPTY_SHIM`; a truthy value that is no string is refused. */
  function AliasTarget(v: Json): Option<string> {
    if Falsy(v) then Some(EMPTY_SHIM) else if v.Str? then Some(v.s) else None
  }

  function AddAlias(aliases: Aliases, key: string, target: string, pkgRoot: string, subpaths: bool): Aliases {
    var k, v := NormalizeAlias(key, pkgRoot, false), NormalizeAlias(target, pkgRoot, false);
    var direct := aliases[k := v];
    if subpaths then direct[k + "/*" := v + "/$1"] else direct
  }

  function AddAliases(aliases: Aliases, fields: seq<(string, Json)>, pkgRoot: string, subpaths: bool): Option<Aliases>
    decreases |fields|
  {
    if |fields| == 0 then Some(aliases)
    else
      match AliasTarget(fields[0].1)
      case None => None
      case Some(target) => AddAliases(AddAlias(aliases, fields[0].0, target, pkgRoot, subpaths), fields[1..], pkgRoot, subpaths)
  }

  function AddAliasField(aliases: Aliases, field: Option<Json>, pkgRoot: string, subpaths: bool): Option<Aliases> {
    match field
    case Some(Null) => None
    case Some(Composite(_, fields)) => AddAliases(aliases, fields, pkgRoot, subpaths)
    case _ => Some(aliases)
  }

  // ---- processPackageJSON ------------------------------------------------------------------

  function MainAliases(fields: seq<(string, Json)>, mains: seq<string>, pkgRoot: string): Aliases
    decreases |mains|
  {
    if |mains| == 0 then map[]
    else
      match Field(fields, mains[0])
      case Some(Str(s)) => map[pkgRoot := NormalizeAlias(s, pkgRoot, true)]
      case _ => MainAliases(fields, mains[1..], pkgRoot)
  }

  function WithoutBrowser(aliases: Aliases, fields: seq<(string, Json)>, pkgRoot: string): Aliases {
    if Field(fields, "browser") == Some(Bool(false)) then aliases[pkgRoot := EMPTY_SHIM] else aliases
  }

  function ExportAliases(aliases: Aliases, exports: Option<Json>, pkgRoot: string): Option<Aliases> {
    if exports.None? || Falsy(exports.value) || pkgRoot == "/" then Some(aliases)
    else
      match exports.value
      case Str(s) => Some(aliases[pkgRoot := NormalizeAlias(s, pkgRoot, true)])
      case Composite(_, fields) => AddExports(aliases, fields, pkgRoot)
      case _ => Some(aliases)
  }

  function Process(content: Json, pkgRoot: string): Option<Aliases> {
    if !content.Composite? then Some(map[])
    else
      var main := WithoutBrowser(MainAliases(content.fields, MAIN_FIELDS, pkgRoot), content.fields, pkgRoot);
      match AddAliasField(main, Field(content.fields, "browser"), pkgRoot, false)
      case None => None
      case Some(browser) =>
        match AddAliasField(browser, Field(content.fields, "alias"), pkgRoot, true)
        case None => None
        case Some(both) => ExportAliases(both, Field(content.fields, "exports"), pkgRoot)
  }

  method ProcessPackageJSON(content: Json, pkgRoot: string) returns (processed: Option<Aliases>)
    ensures processed == Process(content, pkgRoot)
  {
    if !content.Composite? {
      return Some(map[]);
    }
    var fields := content.fields;
    var aliases: Aliases := map[];
    var i := 0;
    while i < |MAIN_FIELDS|
      invariant 0 <= i <= |MAIN_FIELDS| && aliases == map[]
      invariant MainAliases(fields, MAIN_FIELDS[i..], pkgRoot) == MainAliases(fields, MAIN_FIELDS, pkgRoot)
    {
      var main := Field(fields, MAIN_FIELDS[i]);
      assert MAIN_FIELDS[i..][1..] == MAIN_FIELDS[i + 1..];
      if main.Some? && main.value.Str? {
        aliases := map[pkgRoot := NormalizeAlias(main.value.s, pkgRoot, true)];
        break;
      }
      i := i + 1;
    }
    if Field(fields, "browser") == Some(Bool(false)) {
      aliases := aliases[pkgRoot := EMPTY_SHIM];
    }
    var browser := AddField(aliases, Field(fields, "browser"), pkgRoot, false);
    if browser.None? {
      return None;
    }
    var both := AddField(browser.value, Field(fields, "alias"), pkgRoot, true);
    if both.None? {
      return None;
    }
    processed := LoadExports(both.value, Field(fields, "exports"), pkgRoot);
  }

  method AddField(from: Aliases, field: Option<Json>, pkgRoot: string, subpaths: bool) returns (added: Option<Aliases>)
    ensures added == AddAliasField(from, field, pkgRoot, subpaths)
  {
    if field == Some(Null) {
      return None;
    }
    var aliases := from;
    if field.Some? && field.value.Composite? {
      var fields := field.value.fields;
      var i := 0;
      while i < |fields|
        invariant 0 <= i <= |fields|
        invariant AddAliases(aliases, fields[i..], pkgRoot, subpaths) == AddAliases(from, fields, pkgRoot, subpaths)
      {
        assert fields[i..][1..] == fields[i + 1..];
        var target := AliasTarget(fields[i].1);
        if target.None? {
          return None;
        }
        aliases := AddAlias(aliases, fields[i].0, target.value, pkgRoot, subpaths);
        i := i + 1;
      }
    }
    added := Some(aliases);
  }

  method LoadExports(from: Aliases, exports: Option<Json>, pkgRoot: string) returns (added: Option<Aliases>)
    ensures added == ExportAliases(from, exports, pkgRoot)
  {
    var aliases := from;
    if exports.Some? && !Falsy(exports.value) && pkgRoot != "/" {
      if exports.value.Str? {
        aliases := aliases[pkgRoot := NormalizeAlias(exports.value.s, pkgRoot, true)];
      } else if exports.value.Composite? {
        var fields := exports.value.fields;
        var i := 0;
        while i < |fields|
          invariant 0 <= i <= |fields|
          invariant AddExports(aliases, fields[i..], pkgRoot) == AddExports(from, fields, pkgRoot)
        {
          assert fields[i..][1..] == fields[i + 1..];
          var path := ExtractPath(fields[i].1, pkgRoot);
          if path.None? {
            return None;
          }
          var target := if path.value.Some? && path.value.value != "" then path.value.value else EMPTY_SHIM;
          aliases := aliases[NormalizeAlias(fields[i].0, pkgRoot, true) := target];
          i := i + 1;
        }
      }
    }
    added := Some(aliases);
  }

  // ---- which package.json files alias nothing but their own root ------------------------------

  /** Every key of `fields` names the package root itself. */
  predicate NamesRoot(fields: seq<(string, Json)>, pkgRoot: string, isFilePath: bool) {
    forall i :: 0 <= i < |fields| ==> NormalizeAlias(fields[i].0, pkgRoot, isFilePath) == pkgRoot
  }

  /** No `browser` or `exports` subpath, and no `alias` at all. */
  predicate OnlyMainEntry(content: Json, pkgRoot: string) {
    content.Composite? ==>
      var browser, other, exports := Field(content.fields, "browser"), Field(content.fields, "alias"), Field(content.fields, "exports");
      && (browser.Some? && browser.value.Composite? ==> NamesRoot(browser.value.fields, pkgRoot, false))
      && (other.Some? && other.value.Composite? ==> other.value.fields == [])
      && (exports.Some? && exports.value.Composite? && pkgRoot != "/" ==> NamesRoot(exports.value.fields, pkgRoot, true))
  }

  lemma {:induction false} AddAliasesKeys(aliases: Aliases, fields: seq<(string, Json)>, pkgRoot: string, subpaths: bool)
    requires AddAliases(aliases, fields, pkgRoot, subpaths).Some?
    ensures var added := AddAliases(aliases, fields, pkgRoot, subpaths).value;
            && aliases.Keys <= added.Keys
            && (added.Keys <= {pkgRoot} <==>
                aliases.Keys <= {pkgRoot} && NamesRoot(fields, pkgRoot, false) && (subpaths ==> fields == []))
    decreases |fields|
  {
    if |fields| > 0 {
      var more := AddAlias(aliases, fields[0].0, AliasTarget(fields[0].1).value, pkgRoot, subpaths);
      AddAliasesKeys(more, fields[1..], pkgRoot, subpaths);
      NamesRootUncons(fields, pkgRoot, false);
      var k := NormalizeAlias(fields[0].0, pkgRoot, false);
      assert k in more.Keys;
      if subpaths {
        assert k + "/*" in more.Keys;
        assert |k + "/*"| != |k|;
      }
    }
  }

  lemma NamesRootUncons(fields: seq<(string, Json)>, pkgRoot: string, isFilePath: bool)
    requires |fields| > 0
    ensures NamesRoot(fields, pkgRoot, isFilePath) <==>
            NormalizeAlias(fields[0].0, pkgRoot, isFilePath) == pkgRoot && NamesRoot(fields[1..], pkgRoot, isFilePath)
  {
    assert fields == [fields[0]] + fields[1..];
  }

  lemma {:induction false} AddExportsKeys(aliases: Aliases, fields: seq<(string, Json)>, pkgRoot: string)
    requires AddExports(aliases, fields, pkgRoot).Some?
    ensures var added := AddExports(aliases, fields, pkgRoot).value;
            && aliases.Keys <= added.Keys
            && (added.Keys <= {pkgRoot} <==> aliases.Keys <= {pkgRoot} && NamesRoot(fields, pkgRoot, true))
    decreases |fields|
  {
    if |fields| > 0 {
      var path := ExtractPath(fields[0].1, pkgRoot).value;
      var target := if path.Some? && path.value != "" then path.value else EMPTY_SHIM;
      var k := NormalizeAlias(fields[0].0, pkgRoot, true);
      assert k in aliases[k := target].Keys;
      AddExportsKeys(aliases[k := target], fields[1..], pkgRoot);
      NamesRootUncons(fields, pkgRoot, true);
    }
  }

  lemma {:induction false} MainAliasesKeys(fields: seq<(string, Json)>, mains: seq<string>, pkgRoot: string)
    ensures MainAliases(fields, mains, pkgRoot).Keys <= {pkgRoot}
    decreases |mains|
  {
    if |mains| > 0 {
      MainAliasesKeys(fields, mains[1..], pkgRoot);
    }
  }

  lemma AliasFieldKeys(aliases: Aliases, field: Option<Json>, pkgRoot: string, subpaths: bool)
    requires AddAliasField(aliases, field, pkgRoot, subpaths).Some?
    ensures AddAliasField(aliases, field, pkgRoot, subpaths).value.Keys <= {pkgRoot} <==>
            && aliases.Keys <= {pkgRoot}
            && (field.Some? && field.value.Composite? ==>
                  NamesRoot(field.value.fields, pkgRoot, false) && (subpaths ==> field.value.fields == []))
  {
    if field.Some? && field.value.Composite? {
      AddAliasesKeys(aliases, field.value.fields, pkgRoot, subpaths);
    }
  }

  lemma ExportsKeys(aliases: Aliases, exports: Option<Json>, pkgRoot: string)
    requires ExportAliases(aliases, exports, pkgRoot).Some?
    ensures ExportAliases(aliases, exports, pkgRoot).value.Keys <= {pkgRoot} <==>
            && aliases.Keys <= {pkgRoot}
            && (exports.Some? && exports.value.Composite? && pkgRoot != "/" ==> NamesRoot(exports.value.fields, pkgRoot, true))
  {
    if exports.Some? && exports.value.Composite? && pkgRoot != "/" {
      AddExportsKeys(aliases, exports.value.fields, pkgRoot);
    }
  }

  /** The alias table of a package.json has no key but its own root exactly when no field remaps a subpath. */
  lemma OnlyRootKeys(content: Json, pkgRoot: string)
    requires Process(content, pkgRoot).Some?
    ensures Process(content, pkgRoot).value.Keys <= {pkgRoot} <==> OnlyMainEntry(content, pkgRoot)
  {
    if content.Composite? {
      var fields := content.fields;
      var main := WithoutBrowser(MainAliases(fields, MAIN_FIELDS, pkgRoot), fields, pkgRoot);
      var browser := AddAliasField(main, Field(fields, "browser"), pkgRoot, false).value;
      MainAliasesKeys(fields, MAIN_FIELDS, pkgRoot);
      AliasFieldKeys(main, Field(fields, "browser"), pkgRoot, false);
      AliasFieldKeys(browser, Field(fields, "alias"), pkgRoot, true);
      ExportsKeys(AddAliasField(browser, Field(fields, "alias"), pkgRoot, true).value, Field(fields, "exports"), pkgRoot);
    }
  }

  /** A package.json whose only field is `main` maps its root to that file. */
  lemma {:induction false} MainAlone(target: string, pkgRoot: string)
    ensures Process(Composite(false, [("main", Str(target))]), pkgRoot) == Some(map[pkgRoot := NormalizeAlias(target, pkgRoot, true)])
  {
    var fields := [("main", Str(target))];
    OneField("main", Str(target), "module");
    OneField("main", Str(target), "browser");
    OneField("main", Str(target), "main");
    OneField("main", Str(target), "alias");
    OneField("main", Str(target), "exports");
    assert MAIN_FIELDS[1..][0] == "browser" && MAIN_FIELDS[1..][1..] == MAIN_FIELDS[2..] && MAIN_FIELDS[2..][0] == "main";
    var main := MainAliases(fields, MAIN_FIELDS[2..], pkgRoot);
    assert MainAliases(fields, MAIN_FIELDS[1..], pkgRoot) == main;
    assert MainAliases(fields, MAIN_FIELDS, pkgRoot) == main;
  }

  lemma {:induction false} OneField(key: string, v: Json, other: string)
    ensures Field([(key, v)], other) == if other == key then Some(v) else None
  {
    assert [(key, v)][1..] == [];
  }

  lemma {:induction false} NoFieldsNoAliases(pkgRoot: string)
    ensures Process(Composite(false, []), pkgRoot) == Some(map[])
  {
    NoMain([], MAIN_FIELDS, pkgRoot);
  }

  lemma {:induction false} NoMain(fields: seq<(string, Json)>, mains: seq<string>, pkgRoot: string)
    requires forall m :: m in mains ==> Field(fields, m).None?
    ensures MainAliases(fields, mains, pkgRoot) == map[]
    decreases |mains|
  {
    if |mains| > 0 {
      assert mains[0] in mains && forall m :: m in mains[1..] ==> m in mains;
      NoMain(fields, mains[1..], pkgRoot);
    }
  }

  // ---- what the root maps to ---------------------------------------------------------------------

  predicate IsString(fields: seq<(string, Json)>, key: string) {
    Field(fields, key).Some? && Field(fields, key).value.Str?
  }

  /** The first main field, in priority order, that is a string decides. */
  lemma {:induction false} MainPriority(fields: seq<(string, Json)>, mains: seq<string>, k: nat, pkgRoot: string)
    requires k <= |mains| && forall i :: 0 <= i < k ==> !IsString(fields, mains[i])
    ensures k < |mains| && IsString(fields, mains[k]) ==>
              MainAliases(fields, mains, pkgRoot) == map[pkgRoot := NormalizeAlias(Field(fields, mains[k]).value.s, pkgRoot, true)]
    ensures k == |mains| ==> MainAliases(fields, mains, pkgRoot) == map[]
    decreases k
  {
    if k > 0 {
      assert forall i :: 0 <= i < k - 1 ==> mains[1..][i] == mains[i + 1];
      assert !IsString(fields, mains[0]);
      MainPriority(fields, mains[1..], k - 1, pkgRoot);
    }
  }

  /**
   * Where no field maps subpaths, the root maps to the `exports` string, else to the empty module for
   * `browser: false`, else to the first main field in priority order, else to nothing.
   */
  lemma {:induction false} RootTarget(content: Json, k: nat, pkgRoot: string)
    requires content.Composite? && pkgRoot != "/"
    requires Scalar(content.fields, "browser") && Scalar(content.fields, "alias") && Scalar(content.fields, "exports")
    requires k <= |MAIN_FIELDS| && forall i :: 0 <= i < k ==> !IsString(content.fields, MAIN_FIELDS[i])
    requires k < |MAIN_FIELDS| ==> IsString(content.fields, MAIN_FIELDS[k])
    ensures var f, exports := content.fields, Field(content.fields, "exports");
            Process(content, pkgRoot) == Some(
              if IsString(f, "exports") && exports.value.s != "" then map[pkgRoot := NormalizeAlias(exports.value.s, pkgRoot, true)]
              else if Field(f, "browser") == Some(Bool(false)) then map[pkgRoot := EMPTY_SHIM]
              else if k < |MAIN_FIELDS| then map[pkgRoot := NormalizeAlias(Field(f, MAIN_FIELDS[k]).value.s, pkgRoot, true)]
              else map[])
  {
    var f := content.fields;
    var main := MainAliases(f, MAIN_FIELDS, pkgRoot);
    MainPriority(f, MAIN_FIELDS, k, pkgRoot);
    MainAliasesKeys(f, MAIN_FIELDS, pkgRoot);
    ScalarsOnly(content, main, pkgRoot);
  }

  predicate Scalar(fields: seq<(string, Json)>, key: string) {
    var v := Field(fields, key); v.Some? ==> !v.value.Composite? && !v.value.Null?
  }

  lemma {:induction false} ScalarsOnly(content: Json, main: Aliases, pkgRoot: string)
    requires content.Composite? && pkgRoot != "/" && main == MainAliases(content.fields, MAIN_FIELDS, pkgRoot) && main.Keys <= {pkgRoot}
    requires Scalar(content.fields, "browser") && Scalar(content.fields, "alias") && Scalar(content.fields, "exports")
    ensures var f, exports := content.fields, Field(content.fields, "exports");
            Process(content, pkgRoot) == Some(
              if IsString(f, "exports") && exports.value.s != "" then map[pkgRoot := NormalizeAlias(exports.value.s, pkgRoot, true)]
              else if Field(f, "browser") == Some(Bool(false)) then map[pkgRoot := EMPTY_SHIM]
              else main)
  {
    var f := content.fields;
    var kept := WithoutBrowser(main, f, pkgRoot);
    assert AddAliasField(kept, Field(f, "browser"), pkgRoot, false) == Some(kept);
    assert AddAliasField(kept, Field(f, "alias"), pkgRoot, true) == Some(kept);
    assert Process(content, pkgRoot) == ExportAliases(kept, Field(f, "exports"), pkgRoot);
    OnlyKey(main, pkgRoot, EMPTY_SHIM);
    if IsString(f, "exports") && Field(f, "exports").value.s != "" {
      OnlyKey(kept, pkgRoot, NormalizeAlias(Field(f, "exports").value.s, pkgRoot, true));
    }
  }

  lemma {:induction false} OnlyKey(aliases: Aliases, key: string, v: string)
    requires aliases.Keys <= {key}
    ensures aliases[key := v] == map[key := v]
  {
  }
}
