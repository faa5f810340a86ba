/** Relative specifiers: what they join to, and what the resolver makes of them first. */
module Specifiers {
  import opened Strings
  import opened Paths
  import opened AbsolutePaths
  import opened Resolver

  /** A specifier with no backslash and no trailing slash. */
  predicate Plain(specifier: string) {
    specifier != "" && '\\' !in specifier && specifier[|specifier| - 1] != '/'
  }

  function Filled(parts: seq<string>): seq<string> {
    if |parts| == 0 then [] else (if parts[0] == "" then [] else [parts[0]]) + Filled(parts[1..])
  }

  /** Empty segments do nothing. */
  lemma {:induction false} PushFilled(kept: seq<string>, parts: seq<string>, above: bool)
    ensures PushAll(kept, parts, above) == PushAll(kept, Filled(parts), above)
    decreases |parts|
  {
    if |parts| > 0 {
      PushFilled(Push(kept, parts[0], above), parts[1..], above);
      if parts[0] != "" {
        assert Filled(parts)[1..] == Filled(parts[1..]);
      } else {
        assert Filled(parts) == Filled(parts[1..]);
      }
    }
  }

  lemma {:induction false} CollapseParts(s: string)
    requires '\\' !in s
    ensures Split(Collapse(s))[0] == Split(s)[0]
    ensures Filled(Split(Collapse(s))[1..]) == Filled(Split(s)[1..])
  {
    if s != "" {
      CollapseParts(s[1..]);
      var whole, rest := Split(s[1..]), Split(Collapse(s[1..]));
      if s[0] == '/' {
        assert Split(s)[1..] == whole;
        FilledUncons(whole);
        FilledUncons(rest);
        if !(|s| > 1 && Separator(s[1])) {
          assert Split(Collapse(s)) == Prepend('/', rest) by { PrependSplit('/', Collapse(s[1..])); }
          assert Prepend('/', rest)[1..] == rest;
        }
      } else {
        PrependSplit(s[0], Collapse(s[1..]));
      }
    }
  }

  lemma {:induction false} PrependSplit(c: char, s: string)
    ensures Split([c] + s) == Prepend(c, Split(s))
  {
  }

  lemma {:induction false} FilledUncons(parts: seq<string>)
    requires |parts| > 0
    ensures Filled(parts) == (if parts[0] == "" then [] else [parts[0]]) + Filled(parts[1..])
  {
  }

  lemma {:induction false} CollapseEnds(s: string)
    requires Plain(s)
    ensures Plain(Collapse(s)) && ("." <= s ==> "." <= Collapse(s))
  {
    if |s| > 1 {
      CollapseEnds(s[1..]);
    } else {
      assert Collapse(s[1..]) == "";
      assert s == [s[0]] + "";
    }
  }

  /** Collapsing slash runs does not change what a specifier joins to. */
  lemma {:induction false} CollapseJoins(dir: string, specifier: string)
    requires IsAbsolute(dir) && Plain(specifier)
    ensures Join2(dir, NormalizeModuleSpecifier(specifier)) == Join2(dir, specifier)
  {
    CollapseEnds(specifier);
    CollapseParts(specifier);
    SegmentsBelowDir(dir, specifier);
    SegmentsBelowDir(dir, Collapse(specifier));
    FilledUncons(Split(specifier));
    FilledUncons(Split(Collapse(specifier)));
    NormalizeSpells(dir + "/" + specifier);
    NormalizeSpells(dir + "/" + Collapse(specifier));
  }

  lemma {:induction false} SegmentsBelowDir(dir: string, specifier: string)
    requires IsAbsolute(dir)
    ensures Segments(dir + "/" + specifier) == PushAll(PushAll([], Split(dir), false), Filled(Split(specifier)), false)
  {
    SplitConcat(dir, specifier);
    PushAllConcat([], Split(dir), Split(specifier), false);
    PushFilled(PushAll([], Split(dir), false), Split(specifier), false);
  }

  // ---- the joined path --------------------------------------------------------------------------

  /** `join(dirname(filename), specifier)`, where both resolvers start. */
  function Joined(specifier: string, filename: string): string {
    Join2(Dirname(filename), specifier)
  }

  lemma {:induction false} DirnameIsAbsolute(filename: string)
    requires IsAbsolute(filename)
    ensures IsAbsolute(Dirname(filename))
  {
  }

  lemma {:induction false} ModulePath(disk: Disk, specifier: string, filename: string)
    requires IsAbsolute(filename) && Plain(specifier) && "." <= specifier
    ensures var base := Joined(specifier, filename);
            IsAbsolute(base) &&
            ResolveModule(disk, NormalizeModuleSpecifier(specifier), filename) ==
            ResolveAlias(disk, FindPackageJSON(disk, base), base)
  {
    DirnameIsAbsolute(filename);
    CollapseEnds(specifier);
    CollapseJoins(Dirname(filename), specifier);
  }

  /** The exact path is tried first. */
  lemma {:induction false} ExactFirst(extensions: seq<string>)
    ensures |Extensions(extensions)| > 0 && Extensions(extensions)[0] == ""
  {
  }

  /** No extension is in `seen`, and none occurs twice. */
  predicate Unseen(exts: seq<string>, seen: set<string>) {
    && (forall i :: 0 <= i < |exts| ==> exts[i] !in seen)
    && (forall i, j :: 0 <= i < j < |exts| ==> exts[i] != exts[j])
  }

  lemma {:induction false} UnseenCons(ext: string, rest: seq<string>, seen: set<string>)
    ensures Unseen([ext] + rest, seen) <==> ext !in seen && Unseen(rest, seen + {ext})
  {
    var all := [ext] + rest;
    assert forall i :: 0 <= i < |rest| ==> all[i + 1] == rest[i];
    if Unseen(all, seen) {
      assert all[0] == ext && all[0] !in seen;
      forall i | 0 <= i < |rest| ensures rest[i] !in seen + {ext} {
        assert all[i + 1] != all[0];
      }
      forall i, j | 0 <= i < j < |rest| ensures rest[i] != rest[j] {
        assert all[i + 1] != all[j + 1];
      }
    }
    if ext !in seen && Unseen(rest, seen + {ext}) {
      forall i | 0 <= i < |all| ensures all[i] !in seen {
        if i > 0 { assert all[i] == rest[i - 1] && rest[i - 1] !in seen + {ext}; }
      }
      forall i, j | 0 <= i < j < |all| ensures all[i] != all[j] {
        assert all[j] == rest[j - 1];
        if i > 0 { assert all[i] == rest[i - 1]; } else { assert rest[j - 1] !in seen + {ext}; }
      }
    }
  }

  lemma {:induction false} DedupUnseen(exts: seq<string>, seen: set<string>)
    ensures Unseen(Dedup(exts, seen), seen)
    decreases |exts|
  {
    if |exts| > 0 && exts[0] in seen {
      DedupUnseen(exts[1..], seen);
    } else if |exts| > 0 {
      DedupUnseen(exts[1..], seen + {exts[0]});
      UnseenCons(exts[0], Dedup(exts[1..], seen + {exts[0]}), seen);
    }
  }

  lemma {:induction false} UnseenStays(exts: seq<string>, seen: set<string>)
    requires Unseen(exts, seen)
    ensures Dedup(exts, seen) == exts
    decreases |exts|
  {
    if |exts| > 0 {
      assert exts == [exts[0]] + exts[1..];
      UnseenCons(exts[0], exts[1..], seen);
      UnseenStays(exts[1..], seen + {exts[0]});
    }
  }

  /** The exact path is tried first, and only once. */
  predicate ExactOnce(exts: seq<string>) {
    |exts| > 0 && exts[0] == "" && forall i :: 0 < i < |exts| ==> exts[i] != ""
  }

  lemma {:induction false} ExtensionsExactOnce(extensions: seq<string>)
    ensures ExactOnce(Extensions(extensions)) && Unseen(Extensions(extensions)[1..], {""})
  {
    var exts := Extensions(extensions);
    DedupUnseen([""] + extensions, {});
    ExactFirst(extensions);
    assert exts == [exts[0]] + exts[1..];
    UnseenCons("", exts[1..], {});
    assert {} + {""} == {""};
    assert forall i :: 0 < i < |exts| ==> exts[i] == exts[1..][i - 1];
  }

  /** Normalising the extensions twice is normalising them once. */
  lemma {:induction false} ExtensionsTwice(extensions: seq<string>)
    ensures Extensions(Extensions(extensions)) == Extensions(extensions)
  {
    var exts := Extensions(extensions);
    ExtensionsExactOnce(extensions);
    var all := [""] + exts;
    assert all[1..] == exts && {} + {""} == {""};
    assert Dedup(all, {}) == [""] + Dedup(exts, {""});
    assert Dedup(exts, {""}) == Dedup(exts[1..], {""});
    UnseenStays(exts[1..], {""});
    assert exts == [""] + exts[1..];
  }

  /** The `/index` retry joins to the index of what was joined before. */
  lemma {:induction false} JoinedIndex(specifier: string, filename: string)
    requires IsAbsolute(filename) && Plain(specifier) && "." <= specifier
    ensures Plain(specifier + "/index") && "." <= specifier + "/index"
    ensures Joined(specifier + "/index", filename) == Join2(Joined(specifier, filename), "index")
  {
    var dir := Dirname(filename);
    DirnameIsAbsolute(filename);
    var path := dir + "/" + specifier;
    NormalIsAbs(path);
    Regroup(dir + "/", specifier, "/index");
    assert dir + "/" + (specifier + "/index") == path + "/" + "index";
    IndexBelow(path);
  }

  lemma {:induction false} IndexBelow(path: string)
    requires IsAbsolute(path) && path[|path| - 1] != '/'
    ensures Normalize(path + "/" + "index") == Join2(Normalize(path), "index")
  {
    var segs := Segments(path);
    NormalIsAbs(path);
    SplitConcat(path, "index");
    SplitSlashFree("index");
    PushAllConcat([], Split(path), ["index"], false);
    PushName(segs, "index");
    NormalIsAbs(path + "/" + "index");
    if segs != [] {
      JoinBelow(segs, ["index"]);
    } else {
      RootIndex();
    }
  }

  lemma {:induction false} PushName(segs: seq<string>, name: string)
    requires OrdinarySegment(name)
    ensures PushAll(segs, [name], false) == segs + [name]
  {
    assert PushAll(segs, [name], false) == PushAll(segs + [name], [], false);
  }

  lemma {:induction false} RootIndex()
    ensures Join2(Abs([]), "index") == Abs([] + ["index"])
  {
    var path := "/" + "/" + "index";
    assert Abs([]) == "/";
    SplitConcat("/", "index");
    SplitSlashFree("index");
    assert Split("/") == ["", ""] by {
      assert "/"[1..] == "";
    }
    PushAllConcat([], ["", ""], ["index"], false);
    assert ["", ""][1..] == [""];
    PushName([], "index");
    NormalIsAbs(path);
  }

  // ---- separators -----------------------------------------------------------------------------------

  /** The specifier with slashes for backslashes. */
  function Slashed(s: string): string {
    seq(|s|, i requires 0 <= i < |s| => if s[i] == '\\' then '/' else s[i])
  }

  /** Backslashes count as slashes. */
  lemma {:induction false} BackslashIsSlash(s: string)
    ensures Collapse(Slashed(s)) == Collapse(s)
  {
    if s != "" {
      assert Slashed(s)[1..] == Slashed(s[1..]);
      BackslashIsSlash(s[1..]);
      if |s| > 1 { assert Slashed(s)[1] == Slashed(s[1..])[0]; }
    }
  }

  /** What is left has no backslash and no two slashes in a row, and starts with a slash only if the specifier does. */
  lemma {:induction false} NoRunIsLeft(s: string)
    ensures '\\' !in Collapse(s)
    ensures forall i :: 0 <= i < |Collapse(s)| - 1 ==> !(Collapse(s)[i] == '/' && Collapse(s)[i + 1] == '/')
    ensures Collapse(s) != "" && Collapse(s)[0] == '/' ==> s[0] == '/' || s[0] == '\\'
    ensures Collapse(s) == "" <==> s == ""
  {
    if s != "" {
      NoRunIsLeft(s[1..]);
      var rest := Collapse(s[1..]);
      if !(s[0] == '/' || s[0] == '\\') {
        assert Collapse(s) == [s[0]] + rest;
        assert forall i :: 0 < i < |Collapse(s)| - 1 ==> Collapse(s)[i] == rest[i - 1] && Collapse(s)[i + 1] == rest[i];
      } else if !(|s| > 1 && (s[1] == '/' || s[1] == '\\')) {
        assert Collapse(s) == "/" + rest;
        assert rest != "" ==> rest[0] != '/';
        assert forall i :: 0 < i < |Collapse(s)| - 1 ==> Collapse(s)[i] == rest[i - 1] && Collapse(s)[i + 1] == rest[i];
      }
    }
  }

  /** A trailing slash is dropped. */
  lemma TrailingSlashGoes(specifier: string)
    ensures var n := NormalizeModuleSpecifier(specifier);
            && (n != "" ==> n[|n| - 1] != '/')
            && (Collapse(specifier) == n || Collapse(specifier) == n + "/")
  {
    NoRunIsLeft(specifier);
    var c := Collapse(specifier);
    if |c| > 1 && c[|c| - 1] == '/' {
      assert c[|c| - 2] != '/';
    }
  }
}
