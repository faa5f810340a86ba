/** Normal absolute paths, seen as their segments. */
module AbsolutePaths {
  import opened Strings
  import opened Paths

  /** Segments a normal path may hold. */
  predicate Good(segs: seq<string>) {
    Ordinary(segs) && SlashFree(segs)
  }

  /** How many segments the package name of a path takes. */
  function PackageLength(segs: seq<string>): nat
    requires |segs| > 0
  {
    if "@" <= segs[0] then 2 else 1
  }

  /** The segments of a package name: `name`, or `@scope` and `name`. */
  predicate PackageName(segs: seq<string>) {
    Good(segs) && |segs| > 0 && |segs| == PackageLength(segs)
  }

  function Abs(segs: seq<string>): string {
    "/" + Join(segs)
  }

  lemma {:induction false} SplitAbs(segs: seq<string>)
    requires Good(segs) && segs != []
    ensures Split(Abs(segs)) == [""] + segs
  {
    SplitJoin(segs);
    assert Abs(segs)[1..] == Join(segs);
  }

  lemma {:induction false} GoodConcat(a: seq<string>, b: seq<string>)
    ensures Good(a + b) <==> Good(a) && Good(b)
  {
    if Good(a + b) {
      assert forall i :: 0 <= i < |a| ==> (a + b)[i] == a[i];
      assert forall i :: 0 <= i < |b| ==> (a + b)[|a| + i] == b[i];
      assert forall p :: p in a ==> p in a + b;
      assert forall p :: p in b ==> p in a + b;
    }
  }

  lemma {:induction false} NormalizeAbs(segs: seq<string>)
    requires Good(segs) && segs != []
    ensures Normalize(Abs(segs)) == Abs(segs)
    ensures Abs(segs)[|Abs(segs)| - 1] != '/'
  {
    SegmentsOfBare(segs, true);
    NormalizeSpells(Abs(segs));
    LastOfNormal(segs, Join(segs));
  }

  /** A normal path that does not end in a slash is spelt by its segments. */
  lemma {:induction false} NormalIsAbs(path: string)
    requires IsAbsolute(path) && path[|path| - 1] != '/'
    ensures Good(Segments(path)) && Normalize(path) == Abs(Segments(path))
  {
    SegmentsShape(path);
    NormalizeSpells(path);
  }

  lemma {:induction false} AbsConcat(a: seq<string>, b: seq<string>)
    requires a != [] && b != []
    ensures Abs(a + b) == Abs(a) + "/" + Join(b)
  {
    JoinConcat(a, b);
    Regroup("/", Join(a) + "/", Join(b));
    Regroup("/", Join(a), "/");
  }

  /** `join(directory, name)` of a normal directory and a normal relative path. */
  lemma {:induction false} JoinBelow(a: seq<string>, b: seq<string>)
    requires Good(a) && Good(b) && a != [] && b != []
    ensures Good(a + b) && Join2(Abs(a), Join(b)) == Abs(a + b)
  {
    GoodConcat(a, b);
    AbsConcat(a, b);
    NormalizeAbs(a + b);
    JoinIsEmpty(b);
  }

  lemma {:induction false} TrimTrailingNone(s: string)
    requires s != "" && s[|s| - 1] != '/'
    ensures TrimTrailing(s) == s
  {
  }

  lemma {:induction false} BeforeLast(dir: string, name: string)
    requires '/' !in name
    ensures BeforeLastSlash(dir + "/" + name) == dir
    decreases |name|
  {
    var s := dir + "/" + name;
    if name == "" {
      assert s[..|s| - 1] == dir;
    } else {
      var shorter := name[..|name| - 1];
      assert s[..|s| - 1] == dir + "/" + shorter;
      BeforeLast(dir, shorter);
    }
  }

  lemma {:induction false} DirnameAbs(segs: seq<string>, name: string)
    requires Good(segs) && segs != [] && OrdinarySegment(name) && '/' !in name
    ensures Dirname(Abs(segs + [name])) == Abs(segs)
  {
    AbsConcat(segs, [name]);
    var path := Abs(segs + [name]);
    assert path[1..] == Join(segs) + "/" + name;
    TrimTrailingNone(path[1..]);
    BeforeLast(Join(segs), name);
  }

  lemma {:induction false} SplitDot(name: string)
    requires '/' !in name
    ensures Split("./" + name) == [".", name]
  {
    assert "./" + name == "." + "/" + name;
    SplitConcat(".", name);
    SplitSlashFree(".");
    SplitSlashFree(name);
  }

  lemma {:induction false} PushDot(segs: seq<string>, name: string)
    requires OrdinarySegment(name)
    ensures PushAll(segs, [".", name], false) == segs + [name]
  {
    assert [".", name][1..] == [name];
    assert PushAll(segs, [name], false) == PushAll(segs + [name], [], false);
  }

  /** `join(directory, './name')`. */
  lemma {:induction false} JoinDot(segs: seq<string>, name: string)
    requires Good(segs) && segs != [] && OrdinarySegment(name) && '/' !in name
    ensures Join2(Abs(segs), "./" + name) == Abs(segs + [name])
  {
    var path := Abs(segs) + "/" + ("./" + name);
    SplitConcat(Abs(segs), "./" + name);
    SplitDot(name);
    PushAllConcat([], Split(Abs(segs)), [".", name], false);
    SegmentsOfBare(segs, true);
    PushDot(segs, name);
    assert path[|path| - 1] == name[|name| - 1];
    NormalIsAbs(path);
  }

  /** `join(directory, '.')`. */
  lemma {:induction false} JoinHere(segs: seq<string>)
    requires Good(segs) && segs != []
    ensures Join2(Abs(segs), ".") == Abs(segs)
  {
    var path := Abs(segs) + "/" + ".";
    SplitConcat(Abs(segs), ".");
    SplitSlashFree(".");
    PushAllConcat([], Split(Abs(segs)), ["."], false);
    SegmentsOfBare(segs, true);
    assert PushAll(segs, ["."], false) == PushAll(segs, [], false);
    NormalIsAbs(path);
  }
}
