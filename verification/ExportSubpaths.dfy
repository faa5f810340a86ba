/** What an `exports` field gives an entry, spelt out on its keys and targets. */
module ExportSubpaths {
  import opened Wrappers
  import opened ExportTargets

  /** A target's star is what the key's star matched. */
  lemma {:induction false} SubstituteStar(a: string, b: string, matched: string)
    requires '*' !in a && '*' !in b
    ensures Substitute(a + "*" + b, matched) == a + matched + b
  {
    var target := a + "*" + b;
    if a == "" {
      assert target[1..] == b;
      SubstituteNothing(b, matched);
    } else {
      assert target[1..] == a[1..] + "*" + b;
      SubstituteStar(a[1..], b, matched);
      assert [a[0]] + (a[1..] + matched + b) == a + matched + b;
    }
  }

  /** A wildcard key `p*s` matches `p` + anything + `s`, and nothing else. */
  lemma WildcardMatches(p: string, s: string, entry: string)
    requires '*' !in p
    ensures Matches(p + "*" + s, entry) <==> exists matched :: entry == p + matched + s
    ensures PrefixLength(p + "*" + s) == |p|
  {
    StarAt(p, s);
    if Matches(p + "*" + s, entry) {
      assert entry == p + entry[|p|..|entry| - |s|] + s;
    }
    forall matched | entry == p + matched + s ensures Matches(p + "*" + s, entry) {
      assert entry[..|p|] == p && entry[|entry| - |s|..] == s;
    }
  }

  /** A key without a star matches nothing by pattern. */
  lemma {:induction false} PlainKeyMatchesNothing(key: string, entry: string)
    requires '*' !in key
    ensures !Matches(key, entry)
  {
    if key != "" {
      PlainKeyMatchesNothing(key[1..], entry);
      NoStar(key);
    }
  }

  lemma {:induction false} NoStar(key: string)
    requires '*' !in key
    ensures Star(key).None?
  {
    if key != "" {
      NoStar(key[1..]);
    }
  }

  /** The winning key's target for an entry: its star stands for what the key's star matched. */
  lemma WildcardTarget(exports: Exports, p: string, s: string, matched: string, a: string, b: string)
    requires '*' !in p && '*' !in a && '*' !in b
    requires p + "*" + s in exports && exports[p + "*" + s] == Some(a + "*" + b)
    ensures Matches(p + "*" + s, p + matched + s)
    ensures TargetOf(exports, p + "*" + s, p + matched + s) == Some(a + matched + b)
  {
    WildcardMatches(p, s, p + matched + s);
    StarAt(p, s);
    assert (p + matched + s)[|p|..|p + matched + s| - |s|] == matched;
    SubstituteStar(a, b, matched);
  }

  /** A field with a subpath key gives an exact key's own value, before any wildcard. */
  lemma ExactKeyWins(exports: Exports, whole: Option<string>, entry: string, keys: seq<string>, subpath: string)
    requires (forall key :: key in keys ==> key in exports) && subpath in exports && "." <= subpath && entry in exports
    ensures FieldTarget(Keyed(exports, whole), entry, keys) == Some(exports[entry])
  {
  }

  /** Without subpath keys the field is the root's target, and exports nothing else. */
  lemma WholeFieldIsRoot(field: Field, entry: string, keys: seq<string>)
    requires field.Keyed? ==> (forall key :: key in keys ==> key in field.exports) && forall key :: key in field.exports ==> !("." <= key)
    ensures FieldTarget(field, entry, keys) == if entry == "." then Some(field.whole) else None
  {
  }
}
