/** Exactly when the fast path is right, by where the main entries on the way lead. */
module FastPathExact {
  import opened Wrappers
  import opened Strings
  import opened Paths
  import opened AbsolutePaths
  import opened Resolver
  import opened CdnLayout
  import opened Specifiers
  import opened MainEntries
  import opened FastPath

  // ---- packages whose main entries stay inside packages ------------------------------------

  /** A path inside a suitable package, or its root. */
  predicate Inside(disk: Disk, path: string) {
    Normal(path) && ParseNodeModulePath(path).Some? && Suitable(disk, ParseNodeModulePath(path).value.0)
  }

  /** Inside suitable packages no alias key that applies holds a star, and every main entry leads inside one. */
  ghost predicate Tame(disk: Disk) {
    forall path :: Inside(disk, path) ==>
      NoStars(disk, path) && (Redirect(disk, path).Some? ==> Inside(disk, Redirect(disk, path).value))
  }

  lemma {:induction false} InsideSegments(disk: Disk, path: string) returns (name: seq<string>, rel: seq<string>)
    requires Inside(disk, path)
    ensures PackageName(name) && Good(rel) && Suitable(disk, Join(name)) && path == Abs(ROOT + name + rel)
    ensures ParseNodeModulePath(path) == Some((Join(name), Join(rel)))
  {
    NormalIsAbs(path);
    name, rel := ParsedSegments(Segments(path));
  }

  lemma {:induction false} IndexStaysInside(disk: Disk, path: string)
    requires Inside(disk, path)
    ensures Inside(disk, Join2(path, "index"))
  {
    var name, rel := InsideSegments(disk, path);
    IndexInside(name, rel);
    GoodConcat(ROOT, name);
    GoodConcat(ROOT + name, rel + ["index"]);
    NormalizeAbs(ROOT + name + (rel + ["index"]));
    InsideAbs(name, rel + ["index"]);
    ParseInside(name, Join(rel + ["index"]));
  }

  lemma {:induction false} TameIsMild(disk: Disk, path: string, exts: seq<string>)
    requires Tame(disk) && Inside(disk, path)
    ensures Mild(disk, path, exts)
  {
    var name, rel := InsideSegments(disk, path);
    InsideIsMild(disk, name, rel, exts);
  }

  lemma {:induction false} TameChain(disk: Disk, path: string, count: nat)
    requires Tame(disk) && Inside(disk, path)
    ensures MildChain(disk, path, count)
    decreases 6 - count
  {
    if count <= 5 {
      TameIsMild(disk, path, [""]);
      if Redirect(disk, path).Some? {
        TameChain(disk, Redirect(disk, path).value, count + 1);
      }
    }
  }

  lemma {:induction false} TameExpansion(disk: Disk, path: string, exts: seq<string>)
    requires Tame(disk) && Inside(disk, path)
    ensures MildExpansion(disk, path, exts)
  {
    TameIsMild(disk, path, exts);
    if Redirect(disk, path).Some? {
      TameChain(disk, Redirect(disk, path).value, 1);
    }
  }

  /** Where main entries stay inside packages, every path there is regular, whatever chains they form. */
  lemma {:induction false} TameIsRegular(disk: Disk, base: string, exts: seq<string>, retry: bool)
    requires Tame(disk) && Inside(disk, base) && |exts| > 0
    ensures Regular(disk, base, exts, retry)
    decreases retry
  {
    var entered := Entered(disk, base);
    TameIsMild(disk, base, [""]);
    TameExpansion(disk, entered, exts);
    IndexStaysInside(disk, entered);
    TameExpansion(disk, Join2(entered, "index"), exts);
    if retry {
      IndexStaysInside(disk, base);
      TameIsRegular(disk, Join2(base, "index"), exts, false);
    }
  }

  /** There the full resolver is what `Answer` writes out, for every relative import of a suitable package. */
  lemma {:induction false} TameIsAnswer(disk: Disk, specifier: string, filename: string, extensions: seq<string>)
    requires Tame(disk) && Comparable(disk, specifier, filename)
    ensures Resolution(disk, specifier, filename, extensions) ==
            Answer(disk, Joined(specifier, filename), Extensions(extensions), !EndsInIndex(specifier))
  {
    JoinedIsNormal(specifier, filename);
    ExtensionsExactOnce(extensions);
    TameIsRegular(disk, Joined(specifier, filename), Extensions(extensions), !EndsInIndex(specifier));
    FullIsAnswer(disk, specifier, filename, extensions);
  }

  // ---- the files around a joined path ----------------------------------------------------------

  /** Every extension is empty or starts with a dot. */
  predicate Dotted(exts: seq<string>) {
    forall ext :: ext in exts ==> ext == "" || ext[0] == '.'
  }

  lemma {:induction false} DedupSubset(exts: seq<string>, seen: set<string>)
    ensures forall ext :: ext in Dedup(exts, seen) ==> ext in exts
    decreases |exts|
  {
    if |exts| > 0 {
      DedupSubset(exts[1..], seen);
      DedupSubset(exts[1..], seen + {exts[0]});
    }
  }

  lemma {:induction false} ExtensionsDotted(extensions: seq<string>)
    requires Dotted(extensions)
    ensures Dotted(Extensions(extensions))
  {
    DedupSubset([""] + extensions, {});
  }

  lemma {:induction false} NoExtension(path: string, tail: string, ext: string)
    requires tail != "" && tail[0] != '.' && (ext == "" || ext[0] == '.')
    ensures path + tail != path + ext
  {
    assert (path + tail)[|path|] == tail[0];
    if ext != "" { assert (path + ext)[|path|] == ext[0]; }
  }

  lemma {:induction false} FileAtExtends(disk: Disk, path: string, exts: seq<string>) returns (ext: string)
    requires FileAt(disk, path, exts).Some?
    ensures ext in exts && FileAt(disk, path, exts) == Some(path + ext)
    decreases |exts|
  {
    if IsFile(disk, path + exts[0]) {
      ext := exts[0];
    } else {
      ext := FileAtExtends(disk, path, exts[1..]);
    }
  }

  lemma {:induction false} HitExtends(files: Files, rel: string, exts: seq<string>) returns (ext: string)
    requires FirstHit(files, rel, exts).Some?
    ensures ext in exts && FirstHit(files, rel, exts) == Some(rel + ext)
    decreases |exts|
  {
    if rel + exts[0] != "" && rel + exts[0] in files {
      ext := exts[0];
    } else {
      ext := HitExtends(files, rel, exts[1..]);
    }
  }

  /** No file found by extending `stem + tail` is `stem + ext`. */
  lemma {:induction false} TailDiffers(disk: Disk, stem: string, tail: string, path: string, exts: seq<string>, ext: string)
    requires Dotted(exts) && tail != "" && tail[0] != '.' && (ext == "" || ext[0] == '.') && path == stem + tail
    ensures FileAt(disk, path, exts) != Some(stem + ext)
  {
    if FileAt(disk, path, exts).Some? {
      var other := FileAtExtends(disk, path, exts);
      Regroup(stem, tail, other);
      NoExtension(stem, tail + other, ext);
    }
  }

  /** Neither the index nor the index's index is found at `stem + ext`. */
  lemma {:induction false} IndexDiffers(disk: Disk, stem: string, tail: string, index: string, deeper: string, exts: seq<string>, ext: string)
    requires Dotted(exts) && ext in exts && tail != "" && tail[0] != '.'
    requires index == stem + tail && deeper == stem + (tail + "/index")
    ensures FileAt(disk, index, exts) != Some(stem + ext) && FileAt(disk, deeper, exts) != Some(stem + ext)
  {
    TailDiffers(disk, stem, tail, index, exts, ext);
    TailDiffers(disk, stem, tail + "/index", deeper, exts, ext);
  }

  /** How the files at the joined path, its index and the index's index compare with the fast answer. */
  predicate Surroundings(disk: Disk, base: string, exts: seq<string>, root: bool, direct: bool, fast: string) {
    var index := Join2(base, "index");
    && (if root then FileAt(disk, base, exts) != Some(fast) else FileAt(disk, base, exts) == (if direct then Some(fast) else None))
    && (!direct ==> FileAt(disk, index, exts) == Some(fast))
    && (direct ==> FileAt(disk, index, exts) != Some(fast) && FileAt(disk, Join2(index, "index"), exts) != Some(fast))
  }

  lemma {:induction false} SurroundingsBelow(disk: Disk, name: seq<string>, rel: seq<string>, exts: seq<string>, fast: string)
    requires PackageName(name) && Good(rel) && rel != [] && Join(name) in disk.registry && Dotted(exts)
    requires Placed(Join(name), Lookup(disk.registry[Join(name)], Join(rel), exts)) == Some(fast)
    ensures Surroundings(disk, Abs(ROOT + name + rel), exts, false, FirstHit(disk.registry[Join(name)], Join(rel), exts).Some?, fast)
  {
    var base, files := Abs(ROOT + name + rel), disk.registry[Join(name)];
    FileAtInside(disk, name, rel, exts);
    IndexFiles(disk, name, rel, exts);
    if FirstHit(files, Join(rel), exts).Some? {
      var ext := FileAtExtends(disk, base, exts);
      BelowSpelt(name, rel);
      IndexDiffers(disk, base, "/index", Join2(base, "index"), Join2(Join2(base, "index"), "index"), exts, ext);
    }
  }

  lemma {:induction false} IndexFiles(disk: Disk, name: seq<string>, rel: seq<string>, exts: seq<string>)
    requires PackageName(name) && Good(rel) && Join(name) in disk.registry
    ensures FileAt(disk, Join2(Abs(ROOT + name + rel), "index"), exts) ==
            Placed(Join(name), FirstHit(disk.registry[Join(name)], IndexOf(Join(rel)), exts))
  {
    IndexInside(name, rel);
    IndexRel(rel);
    FileAtInside(disk, name, rel + ["index"], exts);
  }

  lemma {:induction false} AppendName(segs: seq<string>, name: string)
    requires Good(segs) && segs != [] && OrdinarySegment(name) && '/' !in name
    ensures Good(segs + [name]) && Join2(Abs(segs), name) == Abs(segs + [name]) == Abs(segs) + ("/" + name)
  {
    JoinBelow(segs, [name]);
    AbsConcat(segs, [name]);
    Regroup(Abs(segs), "/", name);
  }

  /** The index and the index's index, as strings. */
  lemma {:induction false} IndexSpelt(segs: seq<string>, name: string)
    requires Good(segs) && segs != [] && OrdinarySegment(name) && '/' !in name
    ensures Join2(Abs(segs), name) == Abs(segs) + ("/" + name)
    ensures Join2(Join2(Abs(segs), name), name) == Abs(segs) + ("/" + (name + ("/" + name)))
  {
    AppendName(segs, name);
    AppendName(segs + [name], name);
    Regroup(Abs(segs), "/" + name, "/" + name);
    Regroup("/", name, "/" + name);
  }

  lemma {:induction false} BelowSpelt(name: seq<string>, rel: seq<string>)
    requires PackageName(name) && Good(rel)
    ensures var base := Abs(ROOT + name + rel);
            Join2(base, "index") == base + "/index" && Join2(Join2(base, "index"), "index") == base + ("/index" + "/index")
  {
    var index: string :| index == "index";
    GoodConcat(ROOT, name);
    GoodConcat(ROOT + name, rel);
    IndexSpelt(ROOT + name + rel, index);
    assert "/" + index == "/index";
    Regroup("/", index, "/index");
  }

  lemma {:induction false} SurroundingsRoot(disk: Disk, name: seq<string>, rel: string, exts: seq<string>, fast: string)
    requires PackageName(name) && Join(name) in disk.registry && Dotted(exts) && rel == ""
    requires Placed(Join(name), Lookup(disk.registry[Join(name)], rel, exts)) == Some(fast)
    ensures Surroundings(disk, Abs(ROOT + name + []), exts, true, FirstHit(disk.registry[Join(name)], rel, exts).Some?, fast)
  {
    var base, files := Abs(ROOT + name + []), disk.registry[Join(name)];
    var hit := Lookup(files, rel, exts).value;
    RootSpelt(name, hit);
    RootDiffers(disk, base, exts, hit);
    IndexFiles(disk, name, [], exts);
    if FirstHit(files, rel, exts).Some? {
      var ext := HitExtends(files, rel, exts);
      assert hit == ext;
      RootIndexDiffers(disk, name, exts, ext);
    }
  }

  lemma {:induction false} RootIndexDiffers(disk: Disk, name: seq<string>, exts: seq<string>, ext: string)
    requires PackageName(name) && Dotted(exts) && ext in exts
    ensures var base := Abs(ROOT + name + []);
            var fast := base + ("/" + ext);
            && FileAt(disk, Join2(base, "index"), exts) != Some(fast)
            && FileAt(disk, Join2(Join2(base, "index"), "index"), exts) != Some(fast)
  {
    var base := Abs(ROOT + name + []);
    BelowSpelt(name, []);
    RootIndexSpelt(base);
    IndexDiffers(disk, base + "/", "index", Join2(base, "index"), Join2(Join2(base, "index"), "index"), exts, ext);
    Regroup(base, "/", ext);
  }

  lemma {:induction false} RootSpelt(name: seq<string>, hit: string)
    requires name != []
    ensures InPackage(Join(name), hit) == Abs(ROOT + name + []) + ("/" + hit)
  {
    assert ROOT + name + [] == ROOT + name;
    RootAbs(name);
    Regroup(Abs(ROOT + name), "/", hit);
  }

  lemma {:induction false} RootIndexSpelt(base: string)
    ensures base + "/index" == base + "/" + "index" && base + ("/index" + "/index") == base + "/" + ("index" + "/index")
  {
    var index: string :| index == "index";
    var more: string :| more == "/index";
    assert "/" + index == more;
    Regroup(base, "/", index);
    Regroup(base, "/", index + more);
    Regroup("/", index, more);
  }

  lemma {:induction false} RootDiffers(disk: Disk, base: string, exts: seq<string>, hit: string)
    requires Dotted(exts)
    ensures FileAt(disk, base, exts) != Some(base + ("/" + hit))
  {
    if FileAt(disk, base, exts).Some? {
      var ext := FileAtExtends(disk, base, exts);
      NoExtension(base, "/" + hit, ext);
    }
  }

  // ---- the guards --------------------------------------------------------------------------------

  /** From the index child on, with its own main entry first: the fast answer, which phase A found or phase B. */
  predicate IndexLeadsBack(disk: Disk, index: string, exts: seq<string>, direct: bool, fast: string)
    requires |exts| > 0
  {
    match Redirect(disk, index)
    case Some(target) => Probed(disk, target, exts) == Ok(Some(fast))
    case None =>
      var deeper := Join2(index, "index");
      direct ==> FileAt(disk, index, exts).None? && Redirect(disk, deeper).Some? && Expansion(disk, deeper, exts) == Ok(Some(fast))
  }

  /**
   * The fast path is right for a joined path with this surrounding. A main entry at the path must lead to
   * the fast answer, or to nothing, where the index decides; without one, phase A is right below the
   * root, and phase B is unless the index has a main entry that leads elsewhere.
   */
  predicate RightFrom(disk: Disk, base: string, exts: seq<string>, retry: bool, root: bool, direct: bool, fast: string)
    requires |exts| > 0
  {
    var index := Join2(base, "index");
    match Redirect(disk, base)
    case Some(target) =>
      (match Probed(disk, target, exts)
       case Ok(Some(found)) => found == fast
       case Ok(None) => retry && IndexLeadsBack(disk, index, exts, direct, fast)
       case Err(_) => false)
    case None =>
      if !root && direct then true
      else if root && FileAt(disk, base, exts).Some? then false
      else
        match Redirect(disk, index)
        case None => direct ==> retry && IndexLeadsBack(disk, index, exts, direct, fast)
        case Some(target) =>
          match Chase(disk, target, 1)
          case Ok(Some(found)) => found == fast
          case Err(_) => false
          case Ok(None) =>
            match FileAt(disk, index, exts[1..])
            case Some(found) => found == fast
            case None => retry && Probed(disk, target, exts) == Ok(Some(fast))
  }

  lemma {:induction false} FirstAnswer(disk: Disk, base: string, exts: seq<string>, retry: bool, last: bool, x: string)
    requires |exts| > 0 && !last
    ensures Answer(disk, base, exts, retry) == Ok(x) <==>
            match Probed(disk, Entered(disk, base), exts)
            case Ok(Some(found)) => found == x
            case Ok(None) => retry && Answer(disk, Join2(base, "index"), exts, last) == Ok(x)
            case Err(_) => false
  {
  }

  lemma {:induction false} PlainProbe(disk: Disk, path: string, exts: seq<string>)
    requires |exts| > 0 && Redirect(disk, path).None?
    ensures Probed(disk, path, exts) ==
            match FileAt(disk, path, exts) case Some(found) => Ok(Some(found)) case None => Expansion(disk, Join2(path, "index"), exts)
  {
  }

  lemma {:induction false} PlainExpansion(disk: Disk, path: string, exts: seq<string>)
    requires |exts| > 0 && Redirect(disk, path).None?
    ensures Expansion(disk, path, exts) == Ok(FileAt(disk, path, exts))
  {
  }

  lemma {:induction false} LastAnswer(disk: Disk, index: string, exts: seq<string>, last: bool, x: string)
    requires |exts| > 0 && !last
    ensures Answer(disk, index, exts, last) ==
            match Probed(disk, Entered(disk, index), exts) case Ok(Some(found)) => Ok(found) case Ok(None) => Err(NotFound) case Err(e) => Err(e)
  {
  }

  lemma {:induction false} IndexProbes(disk: Disk, index: string, exts: seq<string>, direct: bool, fast: string)
    requires |exts| > 0
    requires !direct ==> FileAt(disk, index, exts) == Some(fast)
    requires direct ==> FileAt(disk, index, exts) != Some(fast) && FileAt(disk, Join2(index, "index"), exts) != Some(fast)
    ensures Probed(disk, Entered(disk, index), exts) == Ok(Some(fast)) <==> IndexLeadsBack(disk, index, exts, direct, fast)
  {
    if Redirect(disk, index).None? {
      PlainProbe(disk, index, exts);
      if Redirect(disk, Join2(index, "index")).None? {
        PlainExpansion(disk, Join2(index, "index"), exts);
      }
    }
  }

  lemma {:induction false} LedExpansion(disk: Disk, path: string, exts: seq<string>)
    requires |exts| > 0 && Redirect(disk, path).Some?
    ensures Expansion(disk, path, exts) ==
            match Chase(disk, Redirect(disk, path).value, 1) case Ok(None) => Ok(FileAt(disk, path, exts[1..])) case found => found
  {
  }

  lemma {:induction false} IndexAnswers(disk: Disk, index: string, exts: seq<string>, last: bool, direct: bool, fast: string)
    requires |exts| > 0 && !last
    requires !direct ==> FileAt(disk, index, exts) == Some(fast)
    requires direct ==> FileAt(disk, index, exts) != Some(fast) && FileAt(disk, Join2(index, "index"), exts) != Some(fast)
    ensures Answer(disk, index, exts, last) == Ok(fast) <==> IndexLeadsBack(disk, index, exts, direct, fast)
  {
    LastAnswer(disk, index, exts, last, fast);
    IndexProbes(disk, index, exts, direct, fast);
    ProbedAnswers(Answer(disk, index, exts, last), Probed(disk, Entered(disk, index), exts), fast, IndexLeadsBack(disk, index, exts, direct, fast));
  }

  lemma {:induction false} ProbedAnswers(answer: Result<string, Failure>, probed: Result<Option<string>, Failure>, fast: string, leads: bool)
    requires answer == match probed case Ok(Some(found)) => Ok(found) case Ok(None) => Err(NotFound) case Err(e) => Err(e)
    requires probed == Ok(Some(fast)) <==> leads
    ensures answer == Ok(fast) <==> leads
  {
  }

  lemma {:induction false} LedGuard(disk: Disk, base: string, exts: seq<string>, retry: bool, last: bool, root: bool, direct: bool, fast: string)
    requires |exts| > 0 && !last && Redirect(disk, base).Some?
    requires Answer(disk, Join2(base, "index"), exts, last) == Ok(fast) <==> IndexLeadsBack(disk, Join2(base, "index"), exts, direct, fast)
    ensures Answer(disk, base, exts, retry) == Ok(fast) <==> RightFrom(disk, base, exts, retry, root, direct, fast)
  {
    FirstAnswer(disk, base, exts, retry, last, fast);
  }

  lemma {:induction false} PlainGuard(disk: Disk, base: string, exts: seq<string>, retry: bool, last: bool, root: bool, direct: bool, fast: string)
    requires |exts| > 0 && !last && Redirect(disk, base).None? && Surroundings(disk, base, exts, root, direct, fast)
    requires Answer(disk, Join2(base, "index"), exts, last) == Ok(fast) <==> IndexLeadsBack(disk, Join2(base, "index"), exts, direct, fast)
    ensures Answer(disk, base, exts, retry) == Ok(fast) <==> RightFrom(disk, base, exts, retry, root, direct, fast)
  {
    var index := Join2(base, "index");
    FirstAnswer(disk, base, exts, retry, last, fast);
    PlainProbe(disk, base, exts);
    if Redirect(disk, index).None? {
      PlainExpansion(disk, index, exts);
    } else {
      LedExpansion(disk, index, exts);
    }
  }

  lemma {:induction false} GuardIsExact(disk: Disk, base: string, exts: seq<string>, retry: bool, root: bool, direct: bool, fast: string)
    requires |exts| > 0 && Surroundings(disk, base, exts, root, direct, fast)
    ensures Answer(disk, base, exts, retry) == Ok(fast) <==> RightFrom(disk, base, exts, retry, root, direct, fast)
  {
    var last: bool :| !last;
    IndexAnswers(disk, Join2(base, "index"), exts, last, direct, fast);
    if Redirect(disk, base).Some? {
      LedGuard(disk, base, exts, retry, last, root, direct, fast);
    } else {
      PlainGuard(disk, base, exts, retry, last, root, direct, fast);
    }
  }

  // ---- the main results -----------------------------------------------------------------------------

  /** What the fast path answers, taken apart. */
  lemma {:induction false} FastIsLookup(disk: Disk, specifier: string, filename: string, extensions: seq<string>)
    requires Comparable(disk, specifier, filename) && Fast(disk, specifier, filename, extensions).Some?
    ensures var (pkg, rel) := ParseNodeModulePath(Joined(specifier, filename)).value;
            Placed(pkg, Lookup(disk.registry[pkg], rel, Extensions(extensions))) == Fast(disk, specifier, filename, extensions)
  {
  }

  /** The guard of a relative import, at the path it joins to. */
  ghost predicate FastIsRight(disk: Disk, specifier: string, filename: string, extensions: seq<string>)
    requires Comparable(disk, specifier, filename) && Fast(disk, specifier, filename, extensions).Some?
  {
    ExtensionsExactOnce(extensions);
    var (pkg, rel) := ParseNodeModulePath(Joined(specifier, filename)).value;
    RightFrom(disk, Joined(specifier, filename), Extensions(extensions), !EndsInIndex(specifier), rel == "",
              FirstHit(disk.registry[pkg], rel, Extensions(extensions)).Some?, Fast(disk, specifier, filename, extensions).value)
  }

  lemma {:induction false} ImportSurroundings(disk: Disk, specifier: string, filename: string, extensions: seq<string>)
    requires Comparable(disk, specifier, filename) && Fast(disk, specifier, filename, extensions).Some? && Dotted(extensions)
    ensures var (pkg, rel) := ParseNodeModulePath(Joined(specifier, filename)).value;
            Surroundings(disk, Joined(specifier, filename), Extensions(extensions), rel == "",
                         FirstHit(disk.registry[pkg], rel, Extensions(extensions)).Some?, Fast(disk, specifier, filename, extensions).value)
  {
    var name, rel := JoinedSegments(specifier, filename);
    FastIsLookup(disk, specifier, filename, extensions);
    ExtensionsDotted(extensions);
    JoinIsEmpty(rel);
    if rel == [] {
      SurroundingsRoot(disk, name, Join(rel), Extensions(extensions), Fast(disk, specifier, filename, extensions).value);
    } else {
      SurroundingsBelow(disk, name, rel, Extensions(extensions), Fast(disk, specifier, filename, extensions).value);
    }
  }

  lemma {:induction false} AnswerGuard(disk: Disk, specifier: string, filename: string, extensions: seq<string>)
    requires Comparable(disk, specifier, filename) && Fast(disk, specifier, filename, extensions).Some? && Dotted(extensions)
    ensures |Extensions(extensions)| > 0
    ensures FastIsRight(disk, specifier, filename, extensions) <==>
            Answer(disk, Joined(specifier, filename), Extensions(extensions), !EndsInIndex(specifier))
            == Ok(Fast(disk, specifier, filename, extensions).value)
  {
    var (pkg, rel) := ParseNodeModulePath(Joined(specifier, filename)).value;
    ExtensionsExactOnce(extensions);
    ImportSurroundings(disk, specifier, filename, extensions);
    GuardIsExact(disk, Joined(specifier, filename), Extensions(extensions), !EndsInIndex(specifier), rel == "",
                 FirstHit(disk.registry[pkg], rel, Extensions(extensions)).Some?, Fast(disk, specifier, filename, extensions).value);
  }

  /**
   * Exactly when the fast path is right, wherever main entries stay inside suitable packages, in chains
   * and cycles too: a main entry at the joined path must lead to the same file, or to nothing and leave
   * it to the index; without one, a file found in phase A below the root is always right, and the index
   * is, unless it has a main entry that leads elsewhere.
   */
  lemma {:induction false} FastIsRightExactlyWhen(disk: Disk, specifier: string, filename: string, extensions: seq<string>)
    requires Tame(disk) && Dotted(extensions)
    requires Comparable(disk, specifier, filename) && Fast(disk, specifier, filename, extensions).Some?
    ensures Resolution(disk, specifier, filename, extensions) == Ok(Fast(disk, specifier, filename, extensions).value) <==>
            FastIsRight(disk, specifier, filename, extensions)
  {
    TameIsAnswer(disk, specifier, filename, extensions);
    AnswerGuard(disk, specifier, filename, extensions);
  }

  lemma {:induction false} StraightGuard(disk: Disk, base: string, exts: seq<string>, retry: bool, root: bool, direct: bool, fast: string)
    requires Straight(disk, base, exts, retry) && |exts| > 0 && ParseNodeModulePath(base).Some?
    requires Surroundings(disk, base, exts, root, direct, fast)
    requires var (pkg, rel) := ParseNodeModulePath(base).value;
             && pkg in disk.registry
             && (Redirect(disk, base).None? && root && FileAt(disk, base, exts).None? ==>
                   Here(disk, pkg, rel, exts) == FileAt(disk, Join2(base, "index"), exts))
    ensures var entered := ParseNodeModulePath(Entered(disk, base)).value;
            RightFrom(disk, base, exts, retry, root, direct, fast) <==>
            if Redirect(disk, base).None? then root ==> FileAt(disk, base, exts).None? && !direct
            else match Here(disk, entered.0, entered.1, exts) case Some(found) => found == fast case None => retry && !direct
  {
    CalmIsHere(disk, Entered(disk, base), exts);
  }

  /**
   * The same from file lookups, for any disk on which the main entry at the joined path, if there is one,
   * leads straight to files. Without a main entry the fast path is right everywhere below a package's
   * root, and at the root unless a bare extension is a file. With one it is right exactly where that
   * entry's files give the same file, or nothing, and then only by the index, on the retry.
   */
  lemma {:induction false} MainEntryGuard(disk: Disk, specifier: string, filename: string, extensions: seq<string>)
    requires Dotted(extensions)
    requires Comparable(disk, specifier, filename) && Fast(disk, specifier, filename, extensions).Some?
    requires Straight(disk, Joined(specifier, filename), Extensions(extensions), !EndsInIndex(specifier))
    ensures var base, exts := Joined(specifier, filename), Extensions(extensions);
            var (pkg, rel) := ParseNodeModulePath(base).value;
            var (otherPkg, otherRel) := ParseNodeModulePath(Entered(disk, base)).value;
            Resolution(disk, specifier, filename, extensions) == Ok(Fast(disk, specifier, filename, extensions).value) <==>
            if Redirect(disk, base).None? then rel == "" ==> CleanRoot(disk, pkg, exts)
            else
              match Here(disk, otherPkg, otherRel, exts)
              case Some(found) => Some(found) == Placed(pkg, Lookup(disk.registry[pkg], rel, exts))
              case None => !EndsInIndex(specifier) && FirstHit(disk.registry[pkg], rel, exts).None?
  {
    var base, exts := Joined(specifier, filename), Extensions(extensions);
    var (pkg, rel) := ParseNodeModulePath(base).value;
    ExtensionsExactOnce(extensions);
    FastIsLookup(disk, specifier, filename, extensions);
    ImportSurroundings(disk, specifier, filename, extensions);
    StraightIsRegular(disk, base, exts, !EndsInIndex(specifier));
    FullIsAnswer(disk, specifier, filename, extensions);
    AnswerGuard(disk, specifier, filename, extensions);
    RootHere(disk, specifier, filename, extensions);
    StraightGuard(disk, base, exts, !EndsInIndex(specifier), rel == "", FirstHit(disk.registry[pkg], rel, exts).Some?,
                  Fast(disk, specifier, filename, extensions).value);
  }

  lemma {:induction false} RootHere(disk: Disk, specifier: string, filename: string, extensions: seq<string>)
    requires Comparable(disk, specifier, filename)
    ensures var base, exts := Joined(specifier, filename), Extensions(extensions);
            var (pkg, rel) := ParseNodeModulePath(base).value;
            && (FileAt(disk, base, exts).None? ==> Here(disk, pkg, rel, exts) == FileAt(disk, Join2(base, "index"), exts))
            && (rel == "" ==> base == NODE_MODULES + pkg)
  {
    var name, rel := JoinedSegments(specifier, filename);
    HereInside(disk, name, rel, Extensions(extensions));
    JoinIsEmpty(rel);
    if rel == [] {
      assert ROOT + name + rel == ROOT + name;
      RootAbs(name);
    }
  }
}
