/**
 * The `exports` target of an entry (crates/sandpack-cdn/src/package/entries.rs). The exports are a hash
 * map, so `Winner` runs over its keys in some order; each key's value is the target its conditions
 * select, or none.
 */
module ExportTargets {
  import opened Wrappers
  import opened Strings

  type Exports = map<string, Option<string>>

  /** `key` split at its first star. */
  function Star(key: string): Option<(string, string)> {
    if key == "" then None
    else if key[0] == '*' then Some(("", key[1..]))
    else match Star(key[1..]) case None => None case Some((prefix, suffix)) => Some(([key[0]] + prefix, suffix))
  }

  predicate Matches(key: string, entry: string) {
    Star(key).Some?
    && var (prefix, suffix) := Star(key).value;
       |prefix| + |suffix| <= |entry| && prefix <= entry && EndsWith(entry, suffix)
  }

  function PrefixLength(key: string): nat {
    match Star(key) case None => 0 case Some((prefix, _)) => |prefix|
  }

  /** Every star of `target` replaced by `matched`. */
  function Substitute(target: string, matched: string): string {
    if target == "" then "" else (if target[0] == '*' then matched else [target[0]]) + Substitute(target[1..], matched)
  }

  function TargetOf(exports: Exports, key: string, entry: string): Option<string>
    requires key in exports && Matches(key, entry)
  {
    var (prefix, suffix) := Star(key).value;
    match exports[key] case None => None case Some(t) => Some(Substitute(t, entry[|prefix|..|entry| - |suffix|]))
  }

  /** The key that wins when `keys` are visited in this order. */
  function Winner(keys: seq<string>, entry: string, best: Option<string>): Option<string>
    decreases |keys|
  {
    if |keys| == 0 then best
    else if !Matches(keys[0], entry) || (best.Some? && PrefixLength(best.value) >= PrefixLength(keys[0])) then
      Winner(keys[1..], entry, best)
    else Winner(keys[1..], entry, Some(keys[0]))
  }

  /** `export_target` for an exports map with subpaths, its keys visited in the order `keys`. */
  function ExportTarget(exports: Exports, entry: string, keys: seq<string>): Option<Option<string>>
    requires forall key :: key in keys ==> key in exports
  {
    if entry in exports then Some(exports[entry])
    else
      WinnerIsAKey(keys, entry, None);
      match Winner(keys, entry, None) case None => None case Some(key) => Some(TargetOf(exports, key, entry))
  }

  /**
   * An `exports` field: a map, or a value or list. `whole` is the target the field selects when it
   * is read as conditions, or as a single target.
   */
  datatype Field = Keyed(exports: Exports, whole: Option<string>) | Single(whole: Option<string>)

  predicate HasSubpaths(exports: Exports) {
    exists key :: key in exports && "." <= key
  }

  /** Without subpath keys a field only exports the root. */
  function FieldTarget(field: Field, entry: string, keys: seq<string>): Option<Option<string>>
    requires field.Keyed? ==> forall key :: key in keys ==> key in field.exports
  {
    if field.Keyed? && HasSubpaths(field.exports) then ExportTarget(field.exports, entry, keys)
    else if entry == "." then Some(field.whole)
    else None
  }

  method FindTarget(field: Field, entry: string, keys: seq<string>) returns (target: Option<Option<string>>)
    requires field.Keyed? ==> forall key :: key in keys ==> key in field.exports
    ensures target == FieldTarget(field, entry, keys)
  {
    if field.Single? || !HasSubpaths(field.exports) {
      return if entry == "." then Some(field.whole) else None;
    }
    var exports := field.exports;
    if entry in exports {
      return Some(exports[entry]);
    }
    var best: Option<(nat, Option<string>)> := None;
    ghost var winner: Option<string> := None;
    var i := 0;
    while i < |keys|
      invariant 0 <= i <= |keys|
      invariant winner.Some? ==> winner.value in exports && Matches(winner.value, entry)
      invariant best == if winner.None? then None else Some((PrefixLength(winner.value), TargetOf(exports, winner.value, entry)))
      invariant Winner(keys[i..], entry, winner) == Winner(keys, entry, None)
    {
      var key := keys[i];
      assert keys[i..][1..] == keys[i + 1..];
      i := i + 1;
      if !Matches(key, entry) {
        continue;
      }
      if best.Some? && best.value.0 >= PrefixLength(key) {
        continue;
      }
      best := Some((PrefixLength(key), TargetOf(exports, key, entry)));
      winner := Some(key);
    }
    target := if best.None? then None else Some(best.value.1);
  }

  lemma {:induction false} WinnerIsAKey(keys: seq<string>, entry: string, best: Option<string>)
    requires best.Some? ==> Matches(best.value, entry)
    ensures var w := Winner(keys, entry, best);
            && (w.Some? ==> (w == best || w.value in keys) && Matches(w.value, entry))
            && (best.Some? ==> w.Some? && PrefixLength(best.value) <= PrefixLength(w.value))
            && (forall key :: key in keys && Matches(key, entry) ==> w.Some? && PrefixLength(key) <= PrefixLength(w.value))
    decreases |keys|
  {
    if |keys| > 0 {
      WinnerIsAKey(keys[1..], entry, if !Matches(keys[0], entry) || (best.Some? && PrefixLength(best.value) >= PrefixLength(keys[0])) then best else Some(keys[0]));
      assert forall key :: key in keys ==> key == keys[0] || key in keys[1..];
    }
  }

  // ---- when the order does not matter ------------------------------------------------------

  /** A matching key no matching key has a longer prefix than. */
  ghost predicate Longest(exports: Exports, entry: string, key: string) {
    && key in exports && Matches(key, entry)
    && forall other :: other in exports && Matches(other, entry) ==> PrefixLength(other) <= PrefixLength(key)
  }

  /** Keys that tie for the longest prefix agree on the target. */
  ghost predicate TiesAgree(exports: Exports, entry: string) {
    forall a, b :: Longest(exports, entry, a) && Longest(exports, entry, b) ==>
      TargetOf(exports, a, entry) == TargetOf(exports, b, entry)
  }

  /** An order in which the map's keys may be visited. */
  ghost predicate Order(exports: Exports, keys: seq<string>) {
    forall key :: key in keys <==> key in exports
  }

  /** Whatever the order, the answer is that of a longest match. */
  lemma {:induction false} LongestWins(exports: Exports, entry: string, keys: seq<string>)
    requires Order(exports, keys)
    ensures entry !in exports && Winner(keys, entry, None).Some? ==> Longest(exports, entry, Winner(keys, entry, None).value)
    ensures Winner(keys, entry, None).None? <==> forall key :: key in exports ==> !Matches(key, entry)
  {
    WinnerIsAKey(keys, entry, None);
  }

  lemma {:induction false} FirstWins(exports: Exports, entry: string, rest: seq<string>, key: string)
    requires Longest(exports, entry, key) && forall k :: k in rest ==> k in exports
    ensures Winner(rest, entry, Some(key)) == Some(key)
    decreases |rest|
  {
    if |rest| > 0 {
      FirstWins(exports, entry, rest[1..], key);
    }
  }

  lemma {:induction false} SomeOrder(names: set<string>) returns (keys: seq<string>)
    ensures forall key :: key in keys <==> key in names
  {
    if names == {} {
      keys := [];
    } else {
      var name :| name in names;
      var rest := SomeOrder(names - {name});
      keys := [name] + rest;
    }
  }

  /** Any longest match can be made to win. */
  lemma {:induction false} OrderFor(exports: Exports, entry: string, key: string) returns (keys: seq<string>)
    requires entry !in exports && Longest(exports, entry, key)
    ensures Order(exports, keys) && ExportTarget(exports, entry, keys) == Some(TargetOf(exports, key, entry))
  {
    var rest := SomeOrder(exports.Keys);
    keys := [key] + rest;
    assert keys[1..] == rest;
    FirstWins(exports, entry, rest, key);
  }

  ghost predicate OrderIndependent(exports: Exports, entry: string) {
    forall a, b :: Order(exports, a) && Order(exports, b) ==> ExportTarget(exports, entry, a) == ExportTarget(exports, entry, b)
  }

  /**
   * The target of an entry is a function of the exports exactly when the entry is an exact key or the
   * wildcard keys that tie for the longest prefix agree.
   */
  lemma {:induction false} OrderMattersForTies(exports: Exports, entry: string)
    ensures OrderIndependent(exports, entry) <==> entry in exports || TiesAgree(exports, entry)
  {
    if entry !in exports {
      if TiesAgree(exports, entry) {
        forall a, b | Order(exports, a) && Order(exports, b) ensures ExportTarget(exports, entry, a) == ExportTarget(exports, entry, b) {
          LongestWins(exports, entry, a);
          LongestWins(exports, entry, b);
        }
      }
      if OrderIndependent(exports, entry) {
        forall a, b | Longest(exports, entry, a) && Longest(exports, entry, b)
          ensures TargetOf(exports, a, entry) == TargetOf(exports, b, entry)
        {
          var first := OrderFor(exports, entry, a);
          var second := OrderFor(exports, entry, b);
        }
      }
    }
  }

  // ---- an exports map whose answer depends on the order ------------------------------------------

  lemma {:induction false} StarAt(prefix: string, suffix: string)
    requires '*' !in prefix
    ensures Star(prefix + "*" + suffix) == Some((prefix, suffix))
  {
    var key := prefix + "*" + suffix;
    if prefix == "" {
      assert key[1..] == suffix;
    } else {
      assert key[1..] == prefix[1..] + "*" + suffix;
      assert prefix == [prefix[0]] + prefix[1..];
      StarAt(prefix[1..], suffix);
    }
  }

  lemma {:induction false} SubstituteNothing(target: string, matched: string)
    requires '*' !in target
    ensures Substitute(target, matched) == target
  {
    if target != "" {
      SubstituteNothing(target[1..], matched);
      assert target == [target[0]] + target[1..];
    }
  }

  /** Of two tied keys, the one visited first gives the answer. */
  lemma {:induction false} FirstOfTwo(exports: Exports, entry: string, first: string, second: string)
    requires exports.Keys == {first, second} && entry !in exports
    requires Matches(first, entry) && Matches(second, entry) && PrefixLength(first) == PrefixLength(second)
    ensures Order(exports, [first, second])
    ensures ExportTarget(exports, entry, [first, second]) == Some(TargetOf(exports, first, entry))
  {
    assert first in exports.Keys;
    assert [first, second][1..] == [second];
    assert [second][1..] == [];
    assert Winner([second], entry, Some(first)) == Some(first);
    assert Winner([first, second], entry, None) == Some(first);
  }

  const EVERY := "./a/*"
  const SCRIPTS := "./a/*.js"
  const IMPORT := "./a/b.js"

  /** Two wildcard keys of one prefix, with different targets. */
  const TIED: Exports := map[EVERY := Some("./x.js"), SCRIPTS := Some("./y.js")]

  lemma {:induction false} TiedMatch()
    ensures Matches(EVERY, IMPORT) && Matches(SCRIPTS, IMPORT)
    ensures PrefixLength(EVERY) == PrefixLength(SCRIPTS)
  {
    StarAt("./a/", "");
    assert "./a/" + "*" + "" == EVERY;
    StarAt("./a/", ".js");
    assert "./a/" + "*" + ".js" == SCRIPTS;
  }

  lemma {:induction false} ConstantTarget(exports: Exports, key: string, entry: string, target: string)
    requires key in exports && exports[key] == Some(target) && '*' !in target && Matches(key, entry)
    ensures TargetOf(exports, key, entry) == Some(target)
  {
    var (prefix, suffix) := Star(key).value;
    SubstituteNothing(target, entry[|prefix|..|entry| - |suffix|]);
  }

  lemma {:induction false} TiedKeys()
    ensures TIED.Keys == {EVERY, SCRIPTS} && IMPORT !in TIED && EVERY != SCRIPTS
    ensures TIED[EVERY] == Some("./x.js") && TIED[SCRIPTS] == Some("./y.js")
  {
    assert |EVERY| == 5 && |SCRIPTS| == 8 && |IMPORT| == 8;
    assert SCRIPTS[4] != IMPORT[4];
  }

  /** For `./a/b.js` the two visiting orders give two different targets. */
  lemma {:induction false} OrderCanMatter()
    ensures Order(TIED, [EVERY, SCRIPTS]) && ExportTarget(TIED, IMPORT, [EVERY, SCRIPTS]) == Some(Some("./x.js"))
    ensures Order(TIED, [SCRIPTS, EVERY]) && ExportTarget(TIED, IMPORT, [SCRIPTS, EVERY]) == Some(Some("./y.js"))
    ensures !OrderIndependent(TIED, IMPORT)
  {
    TiedKeys();
    TiedMatch();
    ConstantTarget(TIED, EVERY, IMPORT, "./x.js");
    ConstantTarget(TIED, SCRIPTS, IMPORT, "./y.js");
    FirstOfTwo(TIED, IMPORT, EVERY, SCRIPTS);
    FirstOfTwo(TIED, IMPORT, SCRIPTS, EVERY);
    assert Some("./x.js") != Some("./y.js");
  }
}
