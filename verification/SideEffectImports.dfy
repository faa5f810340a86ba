/**
 * The scanner for side-effect imports (packages/sandpack-bundler/src/bundler/sideEffectImports.ts).
 * `Scan` says what the index loops compute on the rest of the source; `Harvest` says, on tokens,
 * what they are for.
 */
module SideEffectImports {
  import opened Wrappers

  predicate IsIdentStart(c: char) {
    'a' <= c <= 'z' || 'A' <= c <= 'Z' || c == '_' || c == '$'
  }

  predicate IsIdentPart(c: char) {
    IsIdentStart(c) || '0' <= c <= '9'
  }

  predicate IsSpace(c: char) {
    c == ' ' || c == '\t' || c == '\r' || c == '\n'
  }

  predicate IsQuote(c: char) {
    c == '"' || c == '\'' || c == '`'
  }

  // ---- what is left after a piece of source -----------------------------------------------

  function SkipLine(s: string): (rest: string)
    ensures |rest| <= |s|
  {
    if s == "" || s[0] == '\n' then s else SkipLine(s[1..])
  }

  function SkipBlock(s: string): (rest: string)
    ensures |rest| <= |s|
  {
    if s == "" then "" else if "*/" <= s then s[2..] else SkipBlock(s[1..])
  }

  /** After the closing `quote`; `s` starts behind the opening one. */
  function SkipString(s: string, quote: char): (rest: string)
    ensures |rest| <= |s|
  {
    if s == "" then ""
    else if s[0] == '\\' then if |s| == 1 then "" else SkipString(s[2..], quote)
    else if s[0] == quote then s[1..]
    else SkipString(s[1..], quote)
  }

  /** What was read before the last character, which closes the string if anything does. */
  function StringBody(s: string, quote: char): string {
    var read := |s| - |SkipString(s, quote)|;
    if read == 0 then "" else s[..read - 1]
  }

  /** After one blank or comment, if `s` starts with one. */
  function TriviaOnce(s: string): (rest: Option<string>)
    ensures rest.Some? ==> |rest.value| < |s|
  {
    if s == "" then None
    else if IsSpace(s[0]) then Some(s[1..])
    else if "//" <= s then Some(SkipLine(s[2..]))
    else if "/*" <= s then Some(SkipBlock(s[2..]))
    else None
  }

  function SkipTrivia(s: string): (rest: string)
    ensures |rest| <= |s|
    decreases |s|
  {
    match TriviaOnce(s) case None => s case Some(rest) => SkipTrivia(rest)
  }

  function WordLength(s: string): (n: nat)
    ensures n <= |s| && (s != "" && IsIdentPart(s[0]) ==> n > 0)
  {
    if s == "" || !IsIdentPart(s[0]) then 0 else 1 + WordLength(s[1..])
  }

  /** The string that follows an `import`, if one does directly. */
  predicate StartsString(s: string) {
    s != "" && (s[0] == '"' || s[0] == '\'')
  }

  /** One turn of the scanner: the specifiers found, what is left, the last significant character. */
  datatype Turn = Turn(found: seq<string>, rest: string, prev: Option<char>)

  function WordTurn(s: string, prev: Option<char>): (t: Turn)
    requires s != "" && IsIdentStart(s[0])
    ensures |t.rest| < |s|
  {
    var n := WordLength(s);
    var next := SkipTrivia(s[n..]);
    if s[..n] == "import" && prev != Some('.') && StartsString(next) then
      Turn([StringBody(next[1..], next[0])], SkipString(next[1..], next[0]), Some(next[0]))
    else Turn([], s[n..], Some(s[n - 1]))
  }

  function Take(s: string, prev: Option<char>): (t: Turn)
    requires s != ""
    ensures |t.rest| < |s|
  {
    if "//" <= s then Turn([], SkipLine(s[2..]), prev)
    else if "/*" <= s then Turn([], SkipBlock(s[2..]), prev)
    else if IsQuote(s[0]) then Turn([], SkipString(s[1..], s[0]), Some(s[0]))
    else if IsIdentStart(s[0]) then WordTurn(s, prev)
    else Turn([], s[1..], if IsSpace(s[0]) then prev else Some(s[0]))
  }

  /** The specifiers in `s`, when `prev` was the last significant character before it. */
  function Scan(s: string, prev: Option<char>): seq<string>
    decreases |s|
  {
    if s == "" then [] else var t := Take(s, prev); t.found + Scan(t.rest, t.prev)
  }

  // ---- the scanner -----------------------------------------------------------------------------

  /** `source.slice(i)`, also beyond the end. */
  function Rest(source: string, i: nat): string {
    if i <= |source| then source[i..] else ""
  }

  predicate At(source: string, i: nat, c: char) {
    i < |source| && source[i] == c
  }

  lemma {:induction false} TailAt(source: string, i: nat)
    requires i < |source|
    ensures Rest(source, i) != "" && Rest(source, i)[0] == source[i] && Rest(source, i)[1..] == Rest(source, i + 1)
  {
  }

  lemma {:induction false} PairAt(source: string, i: nat, c: char, d: char)
    requires i < |source|
    ensures [c, d] <= Rest(source, i) <==> At(source, i, c) && At(source, i + 1, d)
    ensures [c, d] <= Rest(source, i) ==> Rest(source, i)[2..] == Rest(source, i + 2)
  {
  }

  lemma {:induction false} StringStep(source: string, j: nat, quote: char)
    requires j < |source|
    ensures SkipString(Rest(source, j), quote) ==
            if source[j] == '\\' then SkipString(Rest(source, j + 2), quote)
            else if source[j] == quote then Rest(source, j + 1)
            else SkipString(Rest(source, j + 1), quote)
  {
  }

  method SkipStringFrom(source: string, start: nat, quote: char) returns (end: nat)
    requires start < |source|
    ensures start < end <= |source|
    ensures Rest(source, end) == SkipString(Rest(source, start + 1), quote)
  {
    var n := |source|;
    var j := start + 1;
    while j < n
      invariant start < j
      invariant SkipString(Rest(source, j), quote) == SkipString(Rest(source, start + 1), quote)
      decreases n - j
    {
      StringStep(source, j, quote);
      var ch := source[j];
      if ch == '\\' {
        j := j + 2;
        continue;
      }
      if ch == quote {
        return j + 1;
      }
      j := j + 1;
    }
    end := n;
  }

  method SkipLineFrom(source: string, start: nat) returns (i: nat)
    requires start <= |source|
    ensures start <= i <= |source| && Rest(source, i) == SkipLine(Rest(source, start))
  {
    i := start;
    while i < |source| && source[i] != '\n'
      invariant start <= i <= |source| && SkipLine(Rest(source, i)) == SkipLine(Rest(source, start))
    {
      TailAt(source, i);
      i := i + 1;
    }
  }

  method SkipBlockFrom(source: string, start: nat) returns (i: nat)
    requires start <= |source|
    ensures start < i && Rest(source, i) == SkipBlock(Rest(source, start))
  {
    i := start;
    while i < |source| && !(At(source, i, '*') && At(source, i + 1, '/'))
      invariant start <= i <= |source| && SkipBlock(Rest(source, i)) == SkipBlock(Rest(source, start))
    {
      TailAt(source, i);
      PairAt(source, i, '*', '/');
      i := i + 1;
    }
    if i < |source| {
      PairAt(source, i, '*', '/');
    }
    i := i + 2;
  }

  /** One blank or comment. */
  method SkipTriviaOnce(source: string, k: nat) returns (more: bool, next: nat)
    requires k < |source|
    ensures k <= next && (more ==> k < next)
    ensures TriviaOnce(Rest(source, k)) == if more then Some(Rest(source, next)) else None
  {
    TailAt(source, k);
    PairAt(source, k, '/', '/');
    PairAt(source, k, '/', '*');
    more, next := true, k;
    if IsSpace(source[k]) {
      next := k + 1;
    } else if At(source, k, '/') && At(source, k + 1, '/') {
      next := SkipLineFrom(source, k + 2);
    } else if At(source, k, '/') && At(source, k + 1, '*') {
      next := SkipBlockFrom(source, k + 2);
    } else {
      more := false;
    }
  }

  method SkipTriviaFrom(source: string, start: nat) returns (k: nat)
    requires start <= |source|
    ensures start <= k && Rest(source, k) == SkipTrivia(Rest(source, start))
  {
    k := start;
    while k < |source|
      invariant start <= k && SkipTrivia(Rest(source, k)) == SkipTrivia(Rest(source, start))
      decreases |source| - k
    {
      var more, next := SkipTriviaOnce(source, k);
      if !more {
        break;
      }
      k := next;
    }
  }

  method WordEnd(source: string, i: nat) returns (j: nat)
    requires i < |source| && IsIdentStart(source[i])
    ensures i < j <= |source| && j - i == WordLength(Rest(source, i))
  {
    j := i + 1;
    TailAt(source, i);
    while j < |source| && IsIdentPart(source[j])
      invariant i < j <= |source| && j - i + WordLength(Rest(source, j)) == WordLength(Rest(source, i))
    {
      TailAt(source, j);
      j := j + 1;
    }
  }

  lemma {:induction false} BodyIsSlice(source: string, start: nat, end: nat, quote: char)
    requires start <= end <= |source| && end > 0 && Rest(source, end) == SkipString(Rest(source, start), quote)
    ensures Slice(source, start, end - 1) == StringBody(Rest(source, start), quote)
  {
    if start < end {
      assert source[start..][..end - start - 1] == source[start..end - 1];
    }
  }

  method ReadSpecifier(source: string, k: nat) returns (specifier: string, end: nat)
    requires k < |source|
    ensures k < end <= |source|
    ensures specifier == StringBody(Rest(source, k + 1), source[k])
    ensures Rest(source, end) == SkipString(Rest(source, k + 1), source[k])
  {
    end := SkipStringFrom(source, k, source[k]);
    BodyIsSlice(source, k + 1, end, source[k]);
    specifier := Slice(source, k + 1, end - 1);
  }

  lemma {:induction false} WordAt(source: string, i: nat, j: nat)
    requires i < j <= |source|
    ensures Rest(source, i)[..j - i] == source[i..j] && Rest(source, i)[j - i..] == Rest(source, j)
    ensures Rest(source, i)[j - i - 1] == source[j - 1]
  {
  }

  /** An identifier, and the string after it if it is an `import` that takes one. */
  method ScanWord(source: string, i: nat, prev: Option<char>) returns (found: seq<string>, next: nat, last: char)
    requires i < |source| && Rest(source, i) != "" && IsIdentStart(source[i]) && IsIdentStart(Rest(source, i)[0])
    ensures i < next <= |source|
    ensures WordTurn(Rest(source, i), prev) == Turn(found, Rest(source, next), Some(last))
  {
    var j := WordEnd(source, i);
    var word := source[i..j];
    WordAt(source, i, j);
    if word == "import" && prev != Some('.') {
      var k := SkipTriviaFrom(source, j);
      if At(source, k, '"') || At(source, k, '\'') {
        TailAt(source, k);
        var specifier, end := ReadSpecifier(source, k);
        return [specifier], end, source[k];
      }
    }
    found, next, last := [], j, word[|word| - 1];
  }

  /** One turn of the loop. */
  method ScanOnce(source: string, i: nat, prev: Option<char>) returns (found: seq<string>, next: nat, last: Option<char>)
    requires i < |source| && Rest(source, i) != ""
    ensures i < next && Take(Rest(source, i), prev) == Turn(found, Rest(source, next), last)
  {
    TailAt(source, i);
    PairAt(source, i, '/', '/');
    PairAt(source, i, '/', '*');
    found, last := [], prev;
    var c := source[i];
    if c == '/' && At(source, i + 1, '/') {
      next := SkipLineFrom(source, i + 2);
    } else if c == '/' && At(source, i + 1, '*') {
      next := SkipBlockFrom(source, i + 2);
    } else if IsQuote(c) {
      next := SkipStringFrom(source, i, c);
      last := Some(c);
    } else if IsIdentStart(c) {
      var end: char;
      found, next, end := ScanWord(source, i, prev);
      last := Some(end);
    } else {
      next := i + 1;
      if !IsSpace(c) {
        last := Some(c);
      }
    }
  }

  lemma {:induction false} ScanTurn(done: seq<string>, s: string, prev: Option<char>)
    requires s != ""
    ensures var t := Take(s, prev); (done + t.found) + Scan(t.rest, t.prev) == done + Scan(s, prev)
  {
    var t := Take(s, prev);
    assert Scan(s, prev) == t.found + Scan(t.rest, t.prev);
  }

  method ExtractSideEffectImports(source: string) returns (specifiers: seq<string>)
    ensures specifiers == Scan(source, None)
  {
    specifiers := [];
    var i := 0;
    var prevSignificant: Option<char> := None;
    while i < |source|
      invariant specifiers + Scan(Rest(source, i), prevSignificant) == Scan(source, None)
      decreases |source| - i
    {
      var found, next, last := ScanOnce(source, i, prevSignificant);
      ScanTurn(specifiers, Rest(source, i), prevSignificant);
      specifiers := specifiers + found;
      i, prevSignificant := next, last;
    }
  }

  /** `s.slice(a, b)`: empty when the bounds cross. */
  function Slice(s: string, a: nat, b: nat): string
    requires b <= |s|
  {
    if a <= b then s[a..b] else ""
  }
}
