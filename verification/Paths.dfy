/**
 * The bundler's POSIX path algebra (packages/sandpack-bundler/src/utils/path.ts).
 * Functions specify the loops; the methods are the loops themselves.
 */
module Paths {
  import opened Strings

  /** One step of `normalizeArray`: what segment `p` does to the segments kept so far. */
  function Push(kept: seq<string>, p: string, allowAboveRoot: bool): seq<string> {
    if p == "" || p == "." then kept
    else if p != ".." then kept + [p]
    else if |kept| > 0 && kept[|kept| - 1] != ".." then kept[..|kept| - 1]
    else if allowAboveRoot then kept + [".."]
    else kept
  }

  function PushAll(kept: seq<string>, parts: seq<string>, allowAboveRoot: bool): seq<string>
    decreases |parts|
  {
    if |parts| == 0 then kept
    else PushAll(Push(kept, parts[0], allowAboveRoot), parts[1..], allowAboveRoot)
  }

  method NormalizeArray(parts: seq<string>, allowAboveRoot: bool) returns (res: seq<string>)
    ensures res == PushAll([], parts, allowAboveRoot)
    ensures if allowAboveRoot then ClimbsOnlyFirst(res) else Ordinary(res)
  {
    res := [];
    var i := 0;
    while i < |parts|
      invariant 0 <= i <= |parts|
      invariant PushAll(res, parts[i..], allowAboveRoot) == PushAll([], parts, allowAboveRoot)
      invariant if allowAboveRoot then ClimbsOnlyFirst(res) else Ordinary(res)
    {
      var p := parts[i];
      i := i + 1;
      assert parts[i - 1..][1..] == parts[i..];
      if p == "" || p == "." {
        continue;
      }
      if p == ".." {
        if |res| > 0 && res[|res| - 1] != ".." {
          res := res[..|res| - 1];
        } else if allowAboveRoot {
          res := res + [".."];
        }
      } else {
        res := res + [p];
      }
    }
  }

  predicate OrdinarySegment(p: string) {
    p != "" && p != "." && p != ".."
  }

  /** No empty, `.` or `..` segment. */
  predicate Ordinary(parts: seq<string>) {
    forall i :: 0 <= i < |parts| ==> OrdinarySegment(parts[i])
  }

  /** No empty or `.` segment, and every `..` comes before every ordinary one. */
  predicate ClimbsOnlyFirst(parts: seq<string>) {
    && (forall i :: 0 <= i < |parts| ==> parts[i] != "" && parts[i] != ".")
    && (forall i, j :: 0 <= i < j < |parts| && parts[j] == ".." ==> parts[i] == "..")
  }

  predicate IsAbsolute(path: string) {
    |path| > 0 && path[0] == '/'
  }

  function Normalize(path: string): string {
    var isAbs := IsAbsolute(path);
    var trailingSlash := path != "" && path[|path| - 1] == '/';
    var joined := Join(PushAll([], Split(path), !isAbs));
    var named := if joined == "" && !isAbs then "." else joined;
    var closed := if named != "" && trailingSlash then named + "/" else named;
    if isAbs then "/" + closed else closed
  }

  /** `join(a, b)`: the two-argument form every caller in the resolver uses. */
  function Join2(a: string, b: string): string {
    Normalize(if a == "" then b else if b == "" then a else a + "/" + b)
  }

  /** The string `join` hands to `normalize`: the non-empty arguments, slash-separated. */
  function Glue(path: string, rest: seq<string>): string
    decreases |rest|
  {
    if |rest| == 0 then path
    else Glue(if rest[0] == "" then path else if path == "" then rest[0] else path + "/" + rest[0], rest[1..])
  }

  method JoinPaths(paths: seq<string>) returns (path: string)
    ensures path == Normalize(Glue("", paths))
    ensures |paths| == 2 ==> path == Join2(paths[0], paths[1])
  {
    var glued := "";
    var i := 0;
    while i < |paths|
      invariant 0 <= i <= |paths|
      invariant Glue(glued, paths[i..]) == Glue("", paths)
    {
      var segment := paths[i];
      assert paths[i..][1..] == paths[i + 1..];
      if segment != "" {
        if glued == "" {
          glued := segment;
        } else {
          glued := glued + "/" + segment;
        }
      }
      i := i + 1;
    }
    if |paths| == 2 {
      assert paths[1..] == [paths[1]];
      assert Glue("", paths) == Glue(paths[0], [paths[1]]);
    }
    path := Normalize(glued);
  }

  /** What remains of `s` without its trailing slashes. */
  function TrimTrailing(s: string): string {
    if s != "" && s[|s| - 1] == '/' then TrimTrailing(s[..|s| - 1]) else s
  }

  /** `s` up to and excluding its last slash; empty when it has none. */
  function BeforeLastSlash(s: string): string {
    if s == "" then ""
    else if s[|s| - 1] == '/' then s[..|s| - 1]
    else BeforeLastSlash(s[..|s| - 1])
  }

  /** `dirname`, as the `splitPathRe` groups compute it. */
  function Dirname(path: string): string {
    var root := if IsAbsolute(path) then "/" else "";
    var dir := BeforeLastSlash(TrimTrailing(path[|root|..]));
    if root == "" && dir == "" then "." else root + dir
  }

  // ---- laws of normalisation ------------------------------------------------

  lemma {:induction false} PushAllConcat(kept: seq<string>, a: seq<string>, b: seq<string>, above: bool)
    ensures PushAll(kept, a + b, above) == PushAll(PushAll(kept, a, above), b, above)
    decreases |a|
  {
    if |a| == 0 {
      assert a + b == b;
    } else {
      assert (a + b)[1..] == a[1..] + b;
      PushAllConcat(Push(kept, a[0], above), a[1..], b, above);
    }
  }

  /** Ordinary segments are kept as they are. */
  lemma {:induction false} PushOrdinary(kept: seq<string>, parts: seq<string>, above: bool)
    requires Ordinary(parts)
    ensures PushAll(kept, parts, above) == kept + parts
    decreases |parts|
  {
    if |parts| > 0 {
      PushOrdinary(kept + [parts[0]], parts[1..], above);
      assert kept + [parts[0]] + parts[1..] == kept + parts;
    } else {
      assert kept + parts == kept;
    }
  }

  /** A normal relative list is a fixed point. */
  lemma {:induction false} PushNormal(kept: seq<string>, parts: seq<string>)
    requires ClimbsOnlyFirst(kept + parts)
    ensures PushAll(kept, parts, true) == kept + parts
    decreases |parts|
  {
    if |parts| > 0 {
      assert (kept + parts)[|kept|] == parts[0];
      if parts[0] == ".." && |kept| > 0 {
        assert (kept + parts)[|kept| - 1] == kept[|kept| - 1];
      }
      assert kept + [parts[0]] + parts[1..] == kept + parts;
      PushNormal(kept + [parts[0]], parts[1..]);
    } else {
      assert kept + parts == kept;
    }
  }

  lemma PushAllShape(kept: seq<string>, parts: seq<string>, above: bool)
    requires SlashFree(kept) && SlashFree(parts)
    requires if above then ClimbsOnlyFirst(kept) else Ordinary(kept)
    ensures SlashFree(PushAll(kept, parts, above))
    ensures if above then ClimbsOnlyFirst(PushAll(kept, parts, above)) else Ordinary(PushAll(kept, parts, above))
    decreases |parts|
  {
    if |parts| > 0 {
      PushAllShape(Push(kept, parts[0], above), parts[1..], above);
    }
  }

  /** The segments `Normalize` keeps. */
  function Segments(path: string): seq<string> {
    PushAll([], Split(path), !IsAbsolute(path))
  }

  lemma SegmentsShape(path: string)
    ensures SlashFree(Segments(path))
    ensures if IsAbsolute(path) then Ordinary(Segments(path)) else ClimbsOnlyFirst(Segments(path))
  {
    SplitIsSlashFree(path);
    PushAllShape([], Split(path), !IsAbsolute(path));
  }

  predicate NonEmptyParts(parts: seq<string>) {
    forall i :: 0 <= i < |parts| ==> parts[i] != ""
  }

  lemma JoinIsEmpty(parts: seq<string>)
    requires NonEmptyParts(parts)
    ensures Join(parts) == "" <==> parts == []
    ensures parts != [] ==> parts[0] <= Join(parts)
  {
  }

  function Named(segments: seq<string>, isAbs: bool): string {
    if segments == [] && !isAbs then "." else Join(segments)
  }

  /** `segments` written as a path, in the four ways `normalize` may write it. */
  function Spell(segments: seq<string>, isAbs: bool, trailingSlash: bool): string {
    var named := Named(segments, isAbs);
    (if isAbs then "/" else "") + named + (if named != "" && trailingSlash then "/" else "")
  }

  lemma NormalizeSpells(path: string)
    ensures Normalize(path) == Spell(Segments(path), IsAbsolute(path), path != "" && path[|path| - 1] == '/')
  {
    SegmentsShape(path);
    JoinIsEmpty(Segments(path));
  }

  /** A spelt path reads back as the segments it was spelt from. */
  lemma SegmentsOfSpelling(segments: seq<string>, isAbs: bool, trailingSlash: bool)
    requires SlashFree(segments)
    requires if isAbs then Ordinary(segments) else ClimbsOnlyFirst(segments)
    ensures var path := Spell(segments, isAbs, trailingSlash);
            && IsAbsolute(path) == isAbs
            && Segments(path) == segments
  {
    var named := Named(segments, isAbs);
    var bare := (if isAbs then "/" else "") + named;
    var path := Spell(segments, isAbs, trailingSlash);
    SegmentsOfBare(segments, isAbs);
    if named != "" && trailingSlash {
      assert path == bare + "/" + "";
      SplitConcat(bare, "");
      PushAllConcat([], Split(bare), [""], !isAbs);
    } else {
      assert path == bare;
    }
  }

  lemma SegmentsOfNamed(segments: seq<string>, isAbs: bool)
    requires SlashFree(segments)
    requires if isAbs then Ordinary(segments) else ClimbsOnlyFirst(segments)
    ensures PushAll([], Split(Named(segments, isAbs)), !isAbs) == segments
    ensures Named(segments, isAbs) != "" ==> Named(segments, isAbs)[0] != '/'
    ensures Named(segments, isAbs) == "" ==> isAbs && segments == []
  {
    JoinIsEmpty(segments);
    if segments != [] {
      assert segments[0] in segments;
      SplitJoin(segments);
      assert [] + segments == segments;
      if isAbs { PushOrdinary([], segments, false); } else { PushNormal([], segments); }
    } else {
      SplitSlashFree(Named(segments, isAbs));
    }
  }

  lemma SegmentsOfBare(segments: seq<string>, isAbs: bool)
    requires SlashFree(segments)
    requires if isAbs then Ordinary(segments) else ClimbsOnlyFirst(segments)
    ensures var bare := (if isAbs then "/" else "") + Named(segments, isAbs);
            IsAbsolute(bare) == isAbs && PushAll([], Split(bare), !isAbs) == segments
  {
    var named := Named(segments, isAbs);
    SegmentsOfNamed(segments, isAbs);
    if isAbs {
      assert ("/" + named)[1..] == named;
      assert ([""] + Split(named))[1..] == Split(named);
    } else {
      assert "" + named == named;
    }
  }

  /** Normalising twice is normalising once. */
  lemma NormalizeIdempotent(path: string)
    ensures Normalize(Normalize(path)) == Normalize(path)
  {
    var trailing := path != "" && path[|path| - 1] == '/';
    var isAbs := IsAbsolute(path);
    NormalizeSpells(path);
    SegmentsShape(path);
    SegmentsOfSpelling(Segments(path), isAbs, trailing);
    var once := Normalize(path);
    NormalizeSpells(once);
    JoinIsEmpty(Segments(path));
    var named := Named(Segments(path), isAbs);
    if named != "" && !trailing {
      LastOfNormal(Segments(path), named);
      assert once[|once| - 1] == named[|named| - 1];
    }
  }

  lemma LastOfNormal(segments: seq<string>, named: string)
    requires SlashFree(segments) && NonEmptyParts(segments)
    requires named == if segments == [] then "." else Join(segments)
    ensures named != "" && named[|named| - 1] != '/'
  {
    if |segments| == 1 {
      assert segments[0] in segments;
    } else if |segments| > 1 {
      LastOfNormal(segments[1..], Join(segments[1..]));
    }
  }

  // ---- resolve and relative -------------------------------------------------

  /** `resolve`'s right-to-left walk: arguments are prepended until one is absolute. */
  function Gather(args: seq<string>, acc: string): (string, bool)
    decreases |args|
  {
    if |args| == 0 then (acc, false)
    else
      var p := args[|args| - 1];
      if p == "" then Gather(args[..|args| - 1], acc)
      else if p[0] == '/' then (p + "/" + acc, true)
      else Gather(args[..|args| - 1], p + "/" + acc)
  }

  /** `resolve(...args)` in a process whose working directory is `cwd`. */
  function Resolve(args: seq<string>, cwd: string): string {
    var (path, isAbs) := Gather([cwd] + args, "");
    var joined := Join(PushAll([], Split(path), !isAbs));
    if isAbs then "/" + joined else if joined == "" then "." else joined
  }

  method ResolvePath(args: seq<string>, cwd: string) returns (path: string)
    ensures path == Resolve(args, cwd)
  {
    var resolvedPath := "";
    var resolvedAbsolute := false;
    var i: int := |args| - 1;
    assert ([cwd] + args)[..|args| + 1] == [cwd] + args;
    while i >= -1 && !resolvedAbsolute
      invariant -2 <= i < |args|
      invariant Gather([cwd] + args, "") ==
                if resolvedAbsolute then (resolvedPath, true) else Gather(([cwd] + args)[..i + 2], resolvedPath)
      decreases i + 2
    {
      var p := if i >= 0 then args[i] else cwd;
      assert ([cwd] + args)[..i + 2][..i + 1] == ([cwd] + args)[..i + 1];
      i := i - 1;
      if p == "" {
        continue;
      }
      resolvedPath := p + "/" + resolvedPath;
      resolvedAbsolute := p[0] == '/';
    }
    var parts := NormalizeArray(Split(resolvedPath), !resolvedAbsolute);
    path := Join(parts);
    if resolvedAbsolute {
      path := "/" + path;
    } else if path == "" {
      path := ".";
    }
  }

  /** `parts` without its leading and trailing empty segments. */
  function TrimEmpty(parts: seq<string>): seq<string> {
    if |parts| > 0 && parts[0] == "" then TrimEmpty(parts[1..])
    else if |parts| > 0 && parts[|parts| - 1] == "" then TrimEmpty(parts[..|parts| - 1])
    else parts
  }

  method TrimArray(parts: seq<string>) returns (res: seq<string>)
    ensures res == TrimEmpty(parts)
  {
    var start := 0;
    while start < |parts| && parts[start] == ""
      invariant 0 <= start <= |parts|
      invariant TrimEmpty(parts[start..]) == TrimEmpty(parts)
    {
      assert parts[start..][1..] == parts[start + 1..];
      start := start + 1;
    }
    var end: int := |parts|;
    assert parts[start..end] == parts[start..];
    while end > 0 && parts[end - 1] == ""
      invariant 0 <= end <= |parts|
      invariant start < |parts| ==> start < end && TrimEmpty(parts[start..end]) == TrimEmpty(parts)
    {
      if start < |parts| {
        assert parts[start..end][..end - start - 1] == parts[start..end - 1];
      }
      end := end - 1;
    }
    res := if start > end then [] else parts[start..end];
  }

  function CommonPrefix(a: seq<string>, b: seq<string>): (n: nat)
    ensures n <= |a| && n <= |b| && a[..n] == b[..n]
    ensures n < |a| && n < |b| ==> a[n] != b[n]
  {
    if |a| > 0 && |b| > 0 && a[0] == b[0] then
      var n := CommonPrefix(a[1..], b[1..]);
      assert a[..n + 1] == [a[0]] + a[1..][..n] && b[..n + 1] == [b[0]] + b[1..][..n];
      n + 1
    else 0
  }

  function Ups(n: nat): seq<string> {
    seq(n, _ => "..")
  }

  /** The segments `relative` joins: up to the common directory, then down to `to`. */
  function Hops(from: seq<string>, to: seq<string>): seq<string> {
    var shared := CommonPrefix(from, to);
    Ups(|from| - shared) + to[shared..]
  }

  function Relative(from: string, to: string, cwd: string): string {
    Join(Hops(TrimEmpty(Split(Drop1(Resolve([from], cwd)))), TrimEmpty(Split(Drop1(Resolve([to], cwd))))))
  }

  /** `s.substr(1)`. */
  function Drop1(s: string): string {
    if s == "" then s else s[1..]
  }

  method RelativePath(from: string, to: string, cwd: string) returns (path: string)
    ensures path == Relative(from, to, cwd)
  {
    var fromPath := ResolvePath([from], cwd);
    var toPath := ResolvePath([to], cwd);
    var fromParts := TrimArray(Split(Drop1(fromPath)));
    var toParts := TrimArray(Split(Drop1(toPath)));
    var length := if |fromParts| < |toParts| then |fromParts| else |toParts|;
    var samePartsLength := length;
    var i := 0;
    while i < length
      invariant 0 <= i <= length && samePartsLength == length
      invariant fromParts[..i] == toParts[..i]
    {
      if fromParts[i] != toParts[i] {
        samePartsLength := i;
        break;
      }
      i := i + 1;
    }
    CommonPrefixIsUnique(fromParts, toParts, samePartsLength);
    var outputParts: seq<string> := [];
    i := samePartsLength;
    while i < |fromParts|
      invariant samePartsLength <= i <= |fromParts|
      invariant outputParts == Ups(i - samePartsLength)
    {
      outputParts := outputParts + [".."];
      i := i + 1;
    }
    path := Join(outputParts + toParts[samePartsLength..]);
  }

  lemma CommonPrefixIsUnique(a: seq<string>, b: seq<string>, n: nat)
    requires n <= |a| && n <= |b| && a[..n] == b[..n]
    requires n < |a| && n < |b| ==> a[n] != b[n]
    ensures CommonPrefix(a, b) == n
  {
  }

  // ---- resolve(from, relative(from, to)) == resolve(to) ------------------------

  lemma {:induction false} GatherPrepends(args: seq<string>, acc: string)
    ensures Gather(args, acc).1 == Gather(args, "").1
    ensures Gather(args, acc).0 == Gather(args, "").0 + acc
    decreases |args|
  {
    if |args| > 0 {
      var p := args[|args| - 1];
      var init := args[..|args| - 1];
      if p == "" {
        GatherPrepends(init, acc);
      } else if p[0] != '/' {
        GatherPrepends(init, p + "/" + acc);
        GatherPrepends(init, p + "/" + "");
        assert Gather(init, "").0 + (p + "/" + "") + acc == Gather(init, "").0 + (p + "/" + acc);
      } else {
        assert p + "/" + "" + acc == p + "/" + acc;
      }
    }
  }

  /** An anchored walk ends in a slash: what it gathered is a directory. */
  lemma {:induction false} GatherEndsInSlash(args: seq<string>)
    requires Gather(args, "").1
    ensures Gather(args, "").0 != "" && EndsWith(Gather(args, "").0, "/")
    decreases |args|
  {
    var p := args[|args| - 1];
    var init := args[..|args| - 1];
    if p == "" {
      GatherEndsInSlash(init);
    } else if p[0] != '/' {
      GatherPrepends(init, p + "/" + "");
    }
  }

  /** Whether `resolve(path)` finds an absolute argument: `path` itself or the working directory. */
  predicate Anchored(path: string, cwd: string) {
    IsAbsolute(path) || IsAbsolute(cwd)
  }

  /** The segments `resolve(path)` names. */
  function Located(path: string, cwd: string): seq<string> {
    PushAll([], Split(Gather([cwd, path], "").0), false)
  }

  lemma ResolveAnchored(path: string, cwd: string)
    requires Anchored(path, cwd)
    ensures Gather([cwd, path], "").1
    ensures SlashFree(Located(path, cwd)) && Ordinary(Located(path, cwd))
    ensures Resolve([path], cwd) == "/" + Join(Located(path, cwd))
    ensures TrimEmpty(Split(Drop1(Resolve([path], cwd)))) == Located(path, cwd)
  {
    assert [cwd] + [path] == [cwd, path];
    assert [cwd, path][..1] == [cwd];
    var gathered := Gather([cwd, path], "").0;
    SplitIsSlashFree(gathered);
    PushAllShape([], Split(gathered), false);
    var located := Located(path, cwd);
    assert Drop1("/" + Join(located)) == Join(located);
    if located == [] {
      assert [""][1..] == [];
    } else {
      SplitJoin(located);
      assert located[0] != "" && located[|located| - 1] != "";
    }
  }

  /** `..` repeated `n` times leaves the first `|kept| - n` segments. */
  lemma {:induction false} PushUps(kept: seq<string>, n: nat)
    requires Ordinary(kept) && n <= |kept|
    ensures PushAll(kept, Ups(n), false) == kept[..|kept| - n]
    decreases n
  {
    if n > 0 {
      assert Ups(n)[1..] == Ups(n - 1);
      PushUps(kept[..|kept| - 1], n - 1);
    }
  }

  lemma HopsLead(from: seq<string>, to: seq<string>)
    requires Ordinary(from) && Ordinary(to)
    ensures PushAll(from, Hops(from, to), false) == to
  {
    HopsFrom(from, to, CommonPrefix(from, to));
  }

  lemma HopsFrom(from: seq<string>, to: seq<string>, shared: nat)
    requires Ordinary(from) && Ordinary(to) && shared <= |from| && shared <= |to| && from[..shared] == to[..shared]
    ensures PushAll(from, Ups(|from| - shared) + to[shared..], false) == to
  {
    var ups, rest := Ups(|from| - shared), to[shared..];
    PushUps(from, |from| - shared);
    PushRest(to, shared);
    PushAllConcat(from, ups, rest, false);
  }

  lemma PushRest(to: seq<string>, shared: nat)
    requires Ordinary(to) && shared <= |to|
    ensures PushAll(to[..shared], to[shared..], false) == to
  {
    PushOrdinary(to[..shared], to[shared..], false);
    assert to[..shared] + to[shared..] == to;
  }

  /**
   * `relative` undoes `resolve`: following the relative path from `from` arrives at `to`,
   * for every pair of paths that resolve to absolute ones.
   */
  lemma ResolveRelative(from: string, to: string, cwd: string)
    requires Anchored(from, cwd) && Anchored(to, cwd)
    ensures Resolve([from, Relative(from, to, cwd)], cwd) == Resolve([to], cwd)
  {
    var hops := RelativeIsHops(from, to, cwd);
    RelativeLeads(from, hops, cwd);
    ResolveAnchored(to, cwd);
  }

  lemma RelativeIsHops(from: string, to: string, cwd: string) returns (hops: seq<string>)
    requires Anchored(from, cwd) && Anchored(to, cwd)
    ensures Relative(from, to, cwd) == Join(hops) && SlashFree(hops) && NonEmptyParts(hops)
    ensures PushAll(Located(from, cwd), hops, false) == Located(to, cwd)
  {
    ResolveAnchored(from, cwd);
    ResolveAnchored(to, cwd);
    var f, t := Located(from, cwd), Located(to, cwd);
    hops := Hops(f, t);
    HopsLead(f, t);
    HopsShape(f, t);
  }

  lemma HopsShape(from: seq<string>, to: seq<string>)
    requires SlashFree(to) && Ordinary(to)
    ensures SlashFree(Hops(from, to)) && NonEmptyParts(Hops(from, to))
  {
  }

  lemma RelativeLeads(from: string, hops: seq<string>, cwd: string)
    requires Anchored(from, cwd) && SlashFree(hops) && NonEmptyParts(hops)
    ensures Resolve([from, Join(hops)], cwd) == "/" + Join(PushAll(Located(from, cwd), hops, false))
  {
    var rel := Join(hops);
    JoinIsEmpty(hops);
    assert hops != [] ==> hops[0] in hops && rel[0] != '/';
    GatherRelative(from, rel, cwd);
    if hops == [] {
      ResolveAnchored(from, cwd);
      ResolveGathered([from, rel], cwd, Gather([cwd, from], "").0);
    } else {
      ResolveBelow(from, hops, cwd);
      ResolveGathered([from, rel], cwd, Gather([cwd, from], rel + "/" + "").0);
    }
  }

  lemma ResolveGathered(args: seq<string>, cwd: string, path: string)
    requires Gather([cwd] + args, "") == (path, true)
    ensures Resolve(args, cwd) == "/" + Join(PushAll([], Split(path), false))
  {
  }

  /** A relative last argument is appended to what the others gather. */
  lemma GatherRelative(from: string, rel: string, cwd: string)
    requires rel != "" ==> rel[0] != '/'
    ensures Gather([cwd] + [from, rel], "") == Gather([cwd, from], if rel == "" then "" else rel + "/" + "")
  {
    var args := [cwd] + [from, rel];
    assert args[..2] == [cwd, from];
    assert args[2] == rel;
  }

  lemma ResolveBelow(from: string, hops: seq<string>, cwd: string)
    requires Anchored(from, cwd) && hops != [] && SlashFree(hops)
    ensures var path := Gather([cwd, from], Join(hops) + "/" + "");
            path.1 && PushAll([], Split(path.0), false) == PushAll(Located(from, cwd), hops, false)
  {
    var base := Gather([cwd, from], "").0;
    ResolveAnchored(from, cwd);
    GatherPrepends([cwd, from], Join(hops) + "/" + "");
    GatherEndsInSlash([cwd, from]);
    SegmentsBelow(base, hops);
  }

  /** The segments below a directory: first the directory's own, then the hops. */
  lemma SegmentsBelow(base: string, hops: seq<string>)
    requires base != "" && EndsWith(base, "/")
    requires hops != [] && SlashFree(hops)
    ensures PushAll([], Split(base + (Join(hops) + "/" + "")), false)
            == PushAll(PushAll([], Split(base), false), hops, false)
  {
    var dir := base[..|base| - 1];
    var rel := Join(hops);
    var f := PushAll([], Split(dir), false);
    assert base == dir + "/" + "";
    assert base + (rel + "/" + "") == dir + "/" + (rel + "/" + "");
    SplitConcat(dir, "");
    SplitConcat(dir, rel + "/" + "");
    SplitConcat(rel, "");
    SplitJoin(hops);
    PushAllConcat([], Split(dir), [""], false);
    PushAllConcat([], Split(dir), hops + [""], false);
    PushAllConcat(f, hops, [""], false);
  }
}
