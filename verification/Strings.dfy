/** `split('/')` and `join('/')` on strings, and the laws that relate them. */
module Strings {
  /** `s.split('/')`: always at least one part. */
  function Split(s: string): (parts: seq<string>)
    ensures |parts| > 0
  {
    if s == "" then [""] else Prepend(s[0], Split(s[1..]))
  }

  /** The parts of a string one character longer. */
  function Prepend(c: char, parts: seq<string>): (longer: seq<string>)
    requires |parts| > 0
    ensures |longer| > 0
  {
    if c == '/' then [""] + parts else [[c] + parts[0]] + parts[1..]
  }

  /** `parts.join('/')`. */
  function Join(parts: seq<string>): string {
    if |parts| == 0 then ""
    else if |parts| == 1 then parts[0]
    else parts[0] + "/" + Join(parts[1..])
  }

  predicate SlashFree(parts: seq<string>) {
    forall p :: p in parts ==> '/' !in p
  }

  predicate EndsWith(s: string, suffix: string) {
    |suffix| <= |s| && s[|s| - |suffix|..] == suffix
  }

  lemma SplitIsSlashFree(s: string)
    ensures SlashFree(Split(s))
  {
  }

  /** A part without a slash is a single segment. */
  lemma {:induction false} SplitSlashFree(p: string)
    requires '/' !in p
    ensures Split(p) == [p]
  {
    if p != "" {
      SplitSlashFree(p[1..]);
      assert p == [p[0]] + p[1..];
    }
  }

  lemma PrependConcat(c: char, a: seq<string>, b: seq<string>)
    requires |a| > 0
    ensures Prepend(c, a + b) == Prepend(c, a) + b
  {
  }

  /** A slash between two strings is a boundary between their segments. */
  lemma {:induction false} SplitConcat(a: string, b: string)
    ensures Split(a + "/" + b) == Split(a) + Split(b)
  {
    var whole := a + "/" + b;
    if a == "" {
      assert whole[1..] == b;
    } else {
      SplitConcat(a[1..], b);
      assert whole[0] == a[0] && whole[1..] == a[1..] + "/" + b;
      PrependConcat(a[0], Split(a[1..]), Split(b));
    }
  }

  /** Joining slash-free parts loses nothing, given there is at least one. */
  lemma {:induction false} SplitJoin(parts: seq<string>)
    requires |parts| > 0 && SlashFree(parts)
    ensures Split(Join(parts)) == parts
  {
    if |parts| == 1 {
      SplitSlashFree(parts[0]);
    } else {
      SplitJoin(parts[1..]);
      SplitSlashFree(parts[0]);
      SplitConcat(parts[0], Join(parts[1..]));
      assert parts == [parts[0]] + parts[1..];
    }
  }

  /** Splitting loses nothing. */
  lemma {:induction false} JoinSplit(s: string)
    ensures Join(Split(s)) == s
  {
    if s != "" {
      JoinSplit(s[1..]);
      JoinPrepend(s[0], Split(s[1..]));
    }
  }

  lemma {:induction false} JoinPrepend(c: char, parts: seq<string>)
    requires |parts| > 0
    ensures Join(Prepend(c, parts)) == [c] + Join(parts)
  {
  }

  lemma Regroup(a: string, b: string, c: string)
    ensures (a + b) + c == a + (b + c)
  {
  }

  lemma {:induction false} JoinCons(p: string, rest: seq<string>)
    requires |rest| > 0
    ensures Join([p] + rest) == p + ("/" + Join(rest))
  {
  }

  lemma {:induction false} JoinConcat(a: seq<string>, b: seq<string>)
    requires |a| > 0 && |b| > 0
    ensures Join(a + b) == Join(a) + "/" + Join(b)
  {
    if |a| == 1 {
      assert (a + b)[1..] == b;
    } else {
      JoinConcat(a[1..], b);
      assert (a + b)[1..] == a[1..] + b;
    }
  }
}
