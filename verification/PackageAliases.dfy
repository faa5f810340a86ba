/** What each field of a package.json adds to its alias table, field by field. */
module PackageAliases {
  import opened Wrappers
  import opened Paths
  import opened PackageJson

  // ---- fields and paths ------------------------------------------------------------------------

  /** A field is the first of its name. */
  lemma {:induction false} FieldIsFirst(fields: seq<(string, Json)>, k: nat)
    requires k < |fields| && forall i :: 0 <= i < k ==> fields[i].0 != fields[k].0
    ensures Field(fields, fields[k].0) == Some(fields[k].1)
    decreases k
  {
    if k > 0 {
      FieldIsFirst(fields[1..], k - 1);
    }
  }

  lemma {:induction false} FieldIsMissing(fields: seq<(string, Json)>, key: string)
    requires forall i :: 0 <= i < |fields| ==> fields[i].0 != key
    ensures Field(fields, key) == None
  {
    if |fields| > 0 {
      FieldIsMissing(fields[1..], key);
    }
  }

  lemma {:induction false} NoStars(s: string)
    requires '*' !in s
    ensures StarsToCapture(s) == s
  {
    if s != "" {
      NoStars(s[1..]);
      assert s == [s[0]] + s[1..];
    }
  }

  /** A star becomes a reference to what it matched. */
  lemma {:induction false} StarIsCapture(a: string, b: string)
    requires '*' !in a && '*' !in b
    ensures StarsToCapture(a + "*" + b) == a + "$1" + b
  {
    var s := a + "*" + b;
    if a == "" {
      assert s[1..] == b;
      NoStars(b);
    } else {
      assert s[1..] == a[1..] + "*" + b;
      StarIsCapture(a[1..], b);
      assert [a[0]] + (a[1..] + "$1" + b) == a + "$1" + b;
    }
  }

  // ---- export targets ---------------------------------------------------------------------------------

  /** What a condition's value gives: a string its path, even an empty one, anything else what it holds. */
  function Chosen(v: Json, pkgRoot: string): Option<Option<string>> {
    match v case Str(s) => Some(Some(NormalizeAlias(StarsToCapture(s), pkgRoot, true))) case _ => ExtractPath(v, pkgRoot)
  }

  function ByOrder(fields: seq<(string, Json)>, keys: seq<string>, pkgRoot: string): Option<Option<string>> {
    if |keys| == 0 then Some(None)
    else match Field(fields, keys[0]) case Some(v) => Chosen(v, pkgRoot) case None => ByOrder(fields, keys[1..], pkgRoot)
  }

  lemma {:induction false} ByConditionIs(v: Json, k: nat, pkgRoot: string)
    requires v.Composite? && k <= |EXPORTS_KEYS|
    ensures ByCondition(v, k, pkgRoot) == ByOrder(v.fields, EXPORTS_KEYS[k..], pkgRoot)
    decreases |EXPORTS_KEYS| - k
  {
    if k < |EXPORTS_KEYS| {
      assert EXPORTS_KEYS[k..][1..] == EXPORTS_KEYS[k + 1..];
      ByConditionIs(v, k + 1, pkgRoot);
    }
  }

  /** An object's target is the first of these conditions that it has. */
  lemma ConditionOrder(fields: seq<(string, Json)>, pkgRoot: string)
    ensures ExtractPath(Composite(false, fields), pkgRoot) ==
            ByOrder(fields, ["browser", "development", "default", "require", "import"], pkgRoot)
  {
    ByConditionIs(Composite(false, fields), 0, pkgRoot);
    assert EXPORTS_KEYS[0..] == EXPORTS_KEYS;
  }

  /** An array's target is that of its first element that has one, if none is unsupported. */
  lemma ArrayTarget(fields: seq<(string, Json)>, k: nat, pkgRoot: string, path: string)
    requires k < |fields| && path != "" && ExtractPath(fields[k].1, pkgRoot) == Some(Some(path))
    requires forall j :: 0 <= j < |fields| ==> ExtractPath(fields[j].1, pkgRoot).Some?
    requires forall j :: 0 <= j < k ==> ExtractPath(fields[j].1, pkgRoot) == Some(None)
    ensures ExtractPath(Composite(true, fields), pkgRoot) == Some(Some(path))
  {
    FirstOfArray(fields, 0, k, pkgRoot, path);
  }

  lemma {:induction false} FirstOfArray(fields: seq<(string, Json)>, i: nat, k: nat, pkgRoot: string, path: string)
    requires i <= k < |fields| && path != ""
    requires forall j :: i <= j < |fields| ==> ExtractPath(fields[j].1, pkgRoot).Some?
    requires forall j :: i <= j < k ==> ExtractPath(fields[j].1, pkgRoot) == Some(None)
    requires ExtractPath(fields[k].1, pkgRoot) == Some(Some(path))
    ensures FirstPath(Composite(true, fields), i, pkgRoot) == Some(Some(path))
    decreases k - i
  {
    NoneUnsupported(fields, i + 1, pkgRoot);
    if i < k {
      FirstOfArray(fields, i + 1, k, pkgRoot, path);
    }
  }

  lemma {:induction false} NoneUnsupported(fields: seq<(string, Json)>, i: nat, pkgRoot: string)
    requires i <= |fields| && forall j :: i <= j < |fields| ==> ExtractPath(fields[j].1, pkgRoot).Some?
    ensures FirstPath(Composite(true, fields), i, pkgRoot).Some?
    decreases |fields| - i
  {
    if i < |fields| {
      NoneUnsupported(fields, i + 1, pkgRoot);
    }
  }

  // ---- what the fields store ------------------------------------------------------------------------------

  /** The last of the fields that names this key. */
  predicate LastNamed(fields: seq<(string, Json)>, i: nat, pkgRoot: string, isFilePath: bool) {
    && i < |fields|
    && forall j :: i < j < |fields| ==> NormalizeAlias(fields[j].0, pkgRoot, isFilePath) != NormalizeAlias(fields[i].0, pkgRoot, isFilePath)
  }

  predicate NamedNowhere(fields: seq<(string, Json)>, key: string, pkgRoot: string, isFilePath: bool) {
    forall j :: 0 <= j < |fields| ==> NormalizeAlias(fields[j].0, pkgRoot, isFilePath) != key
  }

  lemma {:induction false} ExportsLeave(aliases: Aliases, fields: seq<(string, Json)>, pkgRoot: string, key: string)
    requires AddExports(aliases, fields, pkgRoot).Some? && NamedNowhere(fields, key, pkgRoot, true)
    ensures var added := AddExports(aliases, fields, pkgRoot).value;
            (key in added <==> key in aliases) && (key in aliases ==> added[key] == aliases[key])
    decreases |fields|
  {
    if |fields| > 0 {
      var path := ExtractPath(fields[0].1, pkgRoot).value;
      var target := if path.Some? && path.value != "" then path.value else EMPTY_SHIM;
      ExportsLeave(aliases[NormalizeAlias(fields[0].0, pkgRoot, true) := target], fields[1..], pkgRoot, key);
    }
  }

  /** An `exports` key maps to its target, or to the empty module when it has none. */
  lemma {:induction false} ExportIsStored(aliases: Aliases, fields: seq<(string, Json)>, pkgRoot: string, i: nat)
    requires AddExports(aliases, fields, pkgRoot).Some? && LastNamed(fields, i, pkgRoot, true)
    ensures ExtractPath(fields[i].1, pkgRoot).Some?
    ensures var added, key, path := AddExports(aliases, fields, pkgRoot).value, NormalizeAlias(fields[i].0, pkgRoot, true), ExtractPath(fields[i].1, pkgRoot).value;
            key in added && added[key] == if path.Some? && path.value != "" then path.value else "/empty.js"
    decreases |fields|
  {
    var path := ExtractPath(fields[0].1, pkgRoot).value;
    var key := NormalizeAlias(fields[0].0, pkgRoot, true);
    var more := aliases[key := if path.Some? && path.value != "" then path.value else EMPTY_SHIM];
    if i == 0 {
      assert forall j :: 0 <= j < |fields[1..]| ==> fields[1..][j] == fields[j + 1];
      ExportsLeave(more, fields[1..], pkgRoot, key);
    } else {
      assert forall j :: 0 <= j < |fields[1..]| ==> fields[1..][j] == fields[j + 1];
      ExportIsStored(more, fields[1..], pkgRoot, i - 1);
    }
  }

  lemma {:induction false} AliasesLeave(aliases: Aliases, fields: seq<(string, Json)>, pkgRoot: string, subpaths: bool, key: string)
    requires AddAliases(aliases, fields, pkgRoot, subpaths).Some? && NamedNowhere(fields, key, pkgRoot, false)
    requires subpaths ==> forall j :: 0 <= j < |fields| ==> NormalizeAlias(fields[j].0, pkgRoot, false) + "/*" != key
    ensures var added := AddAliases(aliases, fields, pkgRoot, subpaths).value;
            (key in added <==> key in aliases) && (key in aliases ==> added[key] == aliases[key])
    decreases |fields|
  {
    if |fields| > 0 {
      assert forall j :: 0 <= j < |fields[1..]| ==> fields[1..][j] == fields[j + 1];
      AliasesLeave(AddAlias(aliases, fields[0].0, AliasTarget(fields[0].1).value, pkgRoot, subpaths), fields[1..], pkgRoot, subpaths, key);
    }
  }

  /** A `browser` key maps to its target; an `alias` key does too, and so does everything below it. */
  lemma {:induction false} AliasIsStored(aliases: Aliases, fields: seq<(string, Json)>, pkgRoot: string, subpaths: bool, i: nat)
    requires AddAliases(aliases, fields, pkgRoot, subpaths).Some? && LastNamed(fields, i, pkgRoot, false)
    requires forall j :: 0 <= j < |fields| ==> '*' !in fields[j].0 && '*' !in NormalizeAlias(fields[j].0, pkgRoot, false)
    ensures AliasTarget(fields[i].1).Some?
    ensures var added, key := AddAliases(aliases, fields, pkgRoot, subpaths).value, NormalizeAlias(fields[i].0, pkgRoot, false);
            var target := NormalizeAlias(AliasTarget(fields[i].1).value, pkgRoot, false);
            && key in added && added[key] == target
            && (subpaths ==> key + "/*" in added && added[key + "/*"] == target + "/$1")
    decreases |fields|
  {
    assert forall j :: 0 <= j < |fields[1..]| ==> fields[1..][j] == fields[j + 1];
    var more := AddAlias(aliases, fields[0].0, AliasTarget(fields[0].1).value, pkgRoot, subpaths);
    if i == 0 {
      var key := NormalizeAlias(fields[0].0, pkgRoot, false);
      forall j | 0 <= j < |fields[1..]|
        ensures NormalizeAlias(fields[1..][j].0, pkgRoot, false) + "/*" != key
        ensures NormalizeAlias(fields[1..][j].0, pkgRoot, false) != key + "/*"
        ensures NormalizeAlias(fields[1..][j].0, pkgRoot, false) + "/*" != key + "/*"
      {
        StarApart(NormalizeAlias(fields[j + 1].0, pkgRoot, false), key);
      }
      AliasesLeave(more, fields[1..], pkgRoot, subpaths, key);
      if subpaths {
        AliasesLeave(more, fields[1..], pkgRoot, subpaths, key + "/*");
      }
    } else {
      AliasIsStored(more, fields[1..], pkgRoot, subpaths, i - 1);
    }
  }

  lemma StarApart(a: string, b: string)
    requires '*' !in a && '*' !in b && a != b
    ensures a + "/*" != b && a != b + "/*" && a + "/*" != b + "/*"
  {
    assert (a + "/*")[|a| + 1] == '*' && (b + "/*")[|b| + 1] == '*';
    assert (a + "/*")[..|a|] == a && (b + "/*")[..|b|] == b;
  }

  // ---- the whole table -----------------------------------------------------------------------------------------

  /** The fields are laid over each other in this order: main, `browser`, `alias`, `exports`. */
  lemma FieldOrder(fields: seq<(string, Json)>, browser: Json, other: Json, exports: Json, mains: seq<string>, pkgRoot: string)
    requires pkgRoot != "/" && mains == ["module", "browser", "main", "jsnext:main"]
    requires browser.Composite? && other.Composite? && exports.Composite?
    requires Field(fields, "browser") == Some(browser) && Field(fields, "alias") == Some(other) && Field(fields, "exports") == Some(exports)
    ensures Process(Composite(false, fields), pkgRoot) ==
            match AddAliases(MainAliases(fields, mains, pkgRoot), browser.fields, pkgRoot, false)
            case None => None
            case Some(added) =>
              match AddAliases(added, other.fields, pkgRoot, true)
              case None => None
              case Some(both) => AddExports(both, exports.fields, pkgRoot)
  {
    var main := MainAliases(fields, mains, pkgRoot);
    MainsFirst(fields, Composite(false, fields), main, mains, pkgRoot);
    LaidOver(main, fields, browser, other, exports, pkgRoot);
  }

  /** `browser: false`, then the two alias fields, then `exports`. */
  function Layered(main: Aliases, fields: seq<(string, Json)>, pkgRoot: string): Option<Aliases> {
    match AddAliasField(WithoutBrowser(main, fields, pkgRoot), Field(fields, "browser"), pkgRoot, false)
    case None => None
    case Some(added) =>
      match AddAliasField(added, Field(fields, "alias"), pkgRoot, true)
      case None => None
      case Some(both) => ExportAliases(both, Field(fields, "exports"), pkgRoot)
  }

  lemma MainsFirst(fields: seq<(string, Json)>, content: Json, main: Aliases, mains: seq<string>, pkgRoot: string)
    requires content == Composite(false, fields) && mains == ["module", "browser", "main", "jsnext:main"]
    requires main == MainAliases(fields, mains, pkgRoot)
    ensures Process(content, pkgRoot) == Layered(main, fields, pkgRoot)
  {
    assert mains == MAIN_FIELDS;
  }

  lemma LaidOver(main: Aliases, fields: seq<(string, Json)>, browser: Json, other: Json, exports: Json, pkgRoot: string)
    requires pkgRoot != "/" && browser.Composite? && other.Composite? && exports.Composite?
    requires Field(fields, "browser") == Some(browser) && Field(fields, "alias") == Some(other) && Field(fields, "exports") == Some(exports)
    ensures Layered(main, fields, pkgRoot) ==
            match AddAliases(main, browser.fields, pkgRoot, false)
            case None => None
            case Some(added) =>
              match AddAliases(added, other.fields, pkgRoot, true)
              case None => None
              case Some(both) => AddExports(both, exports.fields, pkgRoot)
  {
    assert WithoutBrowser(main, fields, pkgRoot) == main;
  }

  /** A path is absolute already, or is joined to the package root; a bare name is left alone where it may be one. */
  lemma AliasPath(specifier: string, pkgRoot: string)
    ensures "/" <= specifier ==> NormalizeAlias(specifier, pkgRoot, true) == NormalizeAlias(specifier, pkgRoot, false) == specifier
    ensures !("/" <= specifier) ==> NormalizeAlias(specifier, pkgRoot, true) == Join2(pkgRoot, specifier)
    ensures "." <= specifier ==> NormalizeAlias(specifier, pkgRoot, false) == Join2(pkgRoot, specifier)
    ensures !("/" <= specifier) && !("." <= specifier) ==> NormalizeAlias(specifier, pkgRoot, false) == specifier
  {
  }

  /** A string names a path below the package, and nothing falsy does. */
  lemma ExportedString(s: string, pkgRoot: string)
    ensures '*' !in s && s != "" ==> ExtractPath(Str(s), pkgRoot) == Some(Some(if "/" <= s then s else Join2(pkgRoot, s)))
    ensures ExtractPath(Null, pkgRoot) == ExtractPath(Bool(false), pkgRoot) == ExtractPath(Str(""), pkgRoot) == Some(None)
  {
    if '*' !in s {
      NoStars(s);
    }
  }

  /** What a value of `browser` or `alias` stands for: a string for itself, anything falsy for the empty module. */
  lemma AliasedTo(v: Json)
    ensures v.Str? && v.s != "" ==> AliasTarget(v) == Some(v.s)
    ensures v == Null || v == Bool(false) || v == Str("") || v == Number(0) ==> AliasTarget(v) == Some("/empty.js")
  {
  }

  /** The file system root's package.json exports nothing. */
  lemma RootExportsNothing(fields: seq<(string, Json)>, aliases: Aliases)
    ensures ExportAliases(aliases, Field(fields, "exports"), "/") == Some(aliases)
  {
  }
}
