/** What the side-effect-import scanner finds in a source written as tokens. */
module ScannerTokens {
  import opened Wrappers
  import opened SideEffectImports

  datatype Token =
    | Word(w: string)
    | Text(quote: char, body: string)
    | LineComment(c: string)
    | BlockComment(c: string)
    | Space(s: char)
    | Punct(p: char)

  function PrintOne(t: Token): string {
    match t
    case Word(w) => w
    case Text(quote, body) => [quote] + body + [quote]
    case LineComment(c) => "//" + c
    case BlockComment(c) => "/*" + c + "*/"
    case Space(s) => [s]
    case Punct(p) => [p]
  }

  function Print(tokens: seq<Token>): string {
    if |tokens| == 0 then "" else PrintOne(tokens[0]) + Print(tokens[1..])
  }

  /** A string body: every quote of its own kind is escaped, and so is its last backslash. */
  predicate Closed(body: string, quote: char) {
    if body == "" then true
    else if body[0] == '\\' then |body| > 1 && Closed(body[2..], quote)
    else body[0] != quote && Closed(body[1..], quote)
  }

  predicate NoBlockEnd(c: string) {
    if c == "" then true else !("*/" <= c) && NoBlockEnd(c[1..])
  }

  predicate IdentParts(w: string) {
    forall i :: 0 <= i < |w| ==> IsIdentPart(w[i])
  }

  predicate Legal(t: Token) {
    match t
    case Word(w) => w != "" && IsIdentStart(w[0]) && IdentParts(w)
    case Text(quote, body) => IsQuote(quote) && Closed(body, quote)
    case LineComment(c) => '\n' !in c
    case BlockComment(c) => NoBlockEnd(c)
    case Space(s) => IsSpace(s)
    case Punct(p) => !IsSpace(p) && !IsQuote(p) && !IsIdentStart(p)
  }

  /** What follows does not run into the token. */
  predicate Separated(t: Token, next: string) {
    match t
    case Word(_) => next == "" || !IsIdentPart(next[0])
    case LineComment(_) => next == "" || next[0] == '\n'
    case Punct(p) => p != '/' || next == "" || (next[0] != '/' && next[0] != '*')
    case _ => true
  }

  predicate Unambiguous(tokens: seq<Token>) {
    |tokens| > 0 ==> Legal(tokens[0]) && Separated(tokens[0], Print(tokens[1..])) && Unambiguous(tokens[1..])
  }

  predicate Trivia(t: Token) {
    t.Space? || t.LineComment? || t.BlockComment?
  }

  /** Without blanks and comments. */
  function Significant(tokens: seq<Token>): seq<Token> {
    if |tokens| == 0 then []
    else if Trivia(tokens[0]) then Significant(tokens[1..])
    else [tokens[0]] + Significant(tokens[1..])
  }

  /** An `import`, not behind a dot, directly before a string. */
  predicate SideEffect(tokens: seq<Token>, prev: Option<Token>) {
    && |tokens| > 1 && tokens[0] == Word("import") && prev != Some(Punct('.'))
    && tokens[1].Text? && tokens[1].quote != '`'
  }

  /** The strings behind side-effect imports, in order. */
  function Harvest(tokens: seq<Token>, prev: Option<Token>): seq<string> {
    if |tokens| == 0 then []
    else (if SideEffect(tokens, prev) then [tokens[1].body] else []) + Harvest(tokens[1..], Some(tokens[0]))
  }

  // ---- one token -------------------------------------------------------------------------

  lemma {:induction false} LineRead(c: string, rest: string)
    requires '\n' !in c && (rest == "" || rest[0] == '\n')
    ensures SkipLine(c + rest) == rest
    decreases |c|
  {
    if c == "" {
      assert c + rest == rest;
    } else {
      assert (c + rest)[1..] == c[1..] + rest;
      LineRead(c[1..], rest);
    }
  }

  lemma {:induction false} BlockRead(c: string, rest: string)
    requires NoBlockEnd(c)
    ensures SkipBlock(c + "*/" + rest) == rest
    decreases |c|
  {
    var s := c + "*/" + rest;
    if c == "" {
      assert s[2..] == rest;
    } else {
      assert s[1..] == c[1..] + "*/" + rest;
      assert s[0] == c[0] && s[1] == if |c| > 1 then c[1] else '*';
      BlockRead(c[1..], rest);
    }
  }

  lemma {:induction false} StringRead(body: string, quote: char, rest: string)
    requires Closed(body, quote) && quote != '\\'
    ensures SkipString(body + [quote] + rest, quote) == rest
    decreases |body|
  {
    var s := body + [quote] + rest;
    if body == "" {
      assert s[1..] == rest;
    } else if body[0] == '\\' {
      assert s[2..] == body[2..] + [quote] + rest;
      StringRead(body[2..], quote, rest);
    } else {
      assert s[1..] == body[1..] + [quote] + rest;
      StringRead(body[1..], quote, rest);
    }
  }

  lemma {:induction false} BodyRead(body: string, quote: char, rest: string)
    requires Closed(body, quote) && quote != '\\'
    ensures StringBody(body + [quote] + rest, quote) == body
  {
    StringRead(body, quote, rest);
  }

  lemma {:induction false} WordRead(w: string, rest: string)
    requires IdentParts(w) && (rest == "" || !IsIdentPart(rest[0]))
    ensures WordLength(w + rest) == |w|
    decreases |w|
  {
    if w == "" {
      assert w + rest == rest;
    } else {
      assert (w + rest)[1..] == w[1..] + rest;
      WordRead(w[1..], rest);
    }
  }

  /** A blank or comment is skipped whole. */
  lemma {:induction false} TriviaRead(t: Token, rest: string)
    requires Legal(t) && Separated(t, rest) && Trivia(t)
    ensures TriviaOnce(PrintOne(t) + rest) == Some(rest)
  {
    match t
    case Space(c) => assert (PrintOne(t) + rest)[1..] == rest;
    case LineComment(c) => LineCommentRead(c, rest);
    case BlockComment(c) => BlockCommentRead(c, rest);
  }

  lemma LineCommentRead(c: string, rest: string)
    requires Legal(LineComment(c)) && Separated(LineComment(c), rest)
    ensures TriviaOnce(PrintOne(LineComment(c)) + rest) == Some(rest)
  {
    assert (PrintOne(LineComment(c)) + rest)[2..] == c + rest;
    LineRead(c, rest);
  }

  lemma BlockCommentRead(c: string, rest: string)
    requires Legal(BlockComment(c))
    ensures TriviaOnce(PrintOne(BlockComment(c)) + rest) == Some(rest)
  {
    var s := PrintOne(BlockComment(c)) + rest;
    assert s[0] == '/' && s[1] == '*';
    assert s[2..] == c + "*/" + rest;
    BlockRead(c, rest);
  }


  lemma {:induction false} SkipTriviaRead(tokens: seq<Token>) returns (left: seq<Token>)
    requires Unambiguous(tokens)
    ensures SkipTrivia(Print(tokens)) == Print(left) && Unambiguous(left) && |left| <= |tokens|
    ensures Significant(left) == Significant(tokens)
    ensures |left| > 0 ==> !Trivia(left[0])
    decreases |tokens|
  {
    left := tokens;
    if |tokens| > 0 {
      if Trivia(tokens[0]) {
        TriviaRead(tokens[0], Print(tokens[1..]));
        left := SkipTriviaRead(tokens[1..]);
      } else {
        NoTrivia(tokens[0], Print(tokens[1..]));
      }
    }
  }

  lemma {:induction false} NoTrivia(t: Token, rest: string)
    requires Legal(t) && Separated(t, rest) && !Trivia(t)
    ensures PrintOne(t) + rest != "" && TriviaOnce(PrintOne(t) + rest) == None
  {
  }

  // ---- the scan ----------------------------------------------------------------------------

  /** The scanner's memory of a token. */
  function Last(t: Token): char
    requires t.Word? ==> t.w != ""
  {
    match t case Word(w) => w[|w| - 1] case Text(quote, _) => quote case Punct(p) => p case _ => ' '
  }

  predicate Before(prev: Option<Token>) {
    prev.Some? ==> Legal(prev.value) && !Trivia(prev.value)
  }

  function Memory(prev: Option<Token>): Option<char>
    requires Before(prev)
  {
    match prev case None => None case Some(t) => Some(Last(t))
  }

  lemma {:induction false} OnlyTheDot(prev: Option<Token>)
    requires Before(prev)
    ensures Memory(prev) == Some('.') <==> prev == Some(Punct('.'))
  {
  }

  lemma {:induction false} TakeTrivia(s: string, prev: Option<char>)
    requires TriviaOnce(s).Some?
    ensures Take(s, prev) == Turn([], TriviaOnce(s).value, prev)
  {
  }

  lemma {:induction false} TextAhead(quote: char, body: string, rest: string)
    requires Closed(body, quote) && IsQuote(quote)
    ensures var s := PrintOne(Text(quote, body)) + rest;
            s[0] == quote && StringBody(s[1..], quote) == body && SkipString(s[1..], quote) == rest
  {
    var s := [quote] + body + [quote] + rest;
    assert s[1..] == body + [quote] + rest;
    StringRead(body, quote, rest);
    BodyRead(body, quote, rest);
  }

  /** Any token but a word is one turn. */
  lemma {:induction false} TakeOne(t: Token, rest: string, prev: Option<char>)
    requires Legal(t) && Separated(t, rest) && !t.Word?
    ensures PrintOne(t) + rest != ""
    ensures Take(PrintOne(t) + rest, prev) == Turn([], rest, if Trivia(t) then prev else Some(Last(t)))
  {
    var s := PrintOne(t) + rest;
    if Trivia(t) {
      TriviaRead(t, rest);
      TakeTrivia(s, prev);
    } else if t.Text? {
      TextAhead(t.quote, t.body, rest);
    } else {
      assert s[1..] == rest;
      if rest != "" { assert s[1] == rest[0]; }
    }
  }

  lemma {:induction false} TakeWord(w: string, rest: string, prev: Option<char>)
    requires Legal(Word(w)) && Separated(Word(w), rest)
    ensures w + rest != ""
    ensures var next := SkipTrivia(rest);
            Take(w + rest, prev) ==
            if w == "import" && prev != Some('.') && StartsString(next) then
              Turn([StringBody(next[1..], next[0])], SkipString(next[1..], next[0]), Some(next[0]))
            else Turn([], rest, Some(w[|w| - 1]))
  {
    var s := w + rest;
    WordRead(w, rest);
    assert s[..|w|] == w && s[|w|..] == rest && s[0] == w[0] && s[|w| - 1] == w[|w| - 1];
  }

  lemma {:induction false} NoStringAhead(t: Token, rest: string)
    requires Legal(t) && !Trivia(t)
    ensures PrintOne(t) != ""
    ensures StartsString(PrintOne(t) + rest) <==> t.Text? && t.quote != '`'
  {
  }

  /** The string that a significant list starts with, as the scanner sees it. */
  lemma {:induction false} StringAhead(left: seq<Token>)
    requires Unambiguous(left) && (|left| > 0 ==> !Trivia(left[0]))
    ensures StartsString(Print(left)) <==> |left| > 0 && left[0].Text? && left[0].quote != '`'
    ensures StartsString(Print(left)) ==>
              var s := Print(left);
              && s[0] == left[0].quote && StringBody(s[1..], s[0]) == left[0].body
              && SkipString(s[1..], s[0]) == Print(left[1..])
  {
    if |left| > 0 {
      NoStringAhead(left[0], Print(left[1..]));
      if left[0].Text? {
        TextAhead(left[0].quote, left[0].body, Print(left[1..]));
      }
    }
  }

  /**
   * On every unambiguously written token list, the scanner returns exactly the strings that follow an
   * `import` not behind a dot, in order.
   */
  lemma {:induction false} ScanHarvests(tokens: seq<Token>, prev: Option<Token>)
    requires Unambiguous(tokens) && Before(prev)
    ensures Scan(Print(tokens), Memory(prev)) == Harvest(Significant(tokens), prev)
    decreases |tokens|, 0
  {
    if |tokens| > 0 {
      var t, rest := tokens[0], tokens[1..];
      if t.Word? {
        ScanWordHarvests(t.w, rest, prev);
      } else {
        TakeOne(t, Print(rest), Memory(prev));
        if Trivia(t) {
          ScanHarvests(rest, prev);
        } else {
          ScanHarvests(rest, Some(t));
          assert Significant(tokens)[1..] == Significant(rest);
        }
      }
    }
  }

  lemma {:induction false} ScanWordHarvests(w: string, rest: seq<Token>, prev: Option<Token>)
    requires Legal(Word(w)) && Separated(Word(w), Print(rest)) && Unambiguous(rest) && Before(prev)
    ensures Scan(w + Print(rest), Memory(prev)) == Harvest([Word(w)] + Significant(rest), prev)
    decreases |rest|, 1
  {
    var left := SkipTriviaRead(rest);
    TakeWord(w, Print(rest), Memory(prev));
    OnlyTheDot(prev);
    StringAhead(left);
    HarvestWord(w, Significant(rest), prev);
    if w == "import" && prev != Some(Punct('.')) && StartsString(Print(left)) {
      ScanHarvests(left[1..], Some(left[0]));
      assert Significant(rest) == [left[0]] + Significant(left[1..]);
      HarvestText(left[0], Significant(left[1..]), Some(Word(w)));
    } else {
      ScanHarvests(rest, Some(Word(w)));
      if |left| > 0 { assert Significant(rest)[0] == left[0]; }
    }
  }

  lemma {:induction false} HarvestWord(w: string, rest: seq<Token>, prev: Option<Token>)
    ensures Harvest([Word(w)] + rest, prev) ==
            (if w == "import" && prev != Some(Punct('.')) && |rest| > 0 && rest[0].Text? && rest[0].quote != '`' then [rest[0].body] else [])
            + Harvest(rest, Some(Word(w)))
  {
  }

  lemma {:induction false} HarvestText(t: Token, rest: seq<Token>, prev: Option<Token>)
    requires !t.Word?
    ensures Harvest([t] + rest, prev) == Harvest(rest, Some(t))
  {
  }

  /** The extracted specifiers, for a whole source. */
  lemma {:induction false} ExtractsSideEffects(tokens: seq<Token>)
    requires Unambiguous(tokens)
    ensures Scan(Print(tokens), None) == Harvest(Significant(tokens), None)
  {
    ScanHarvests(tokens, None);
  }

  // ---- on characters ------------------------------------------------------------------------------

  /** The character classes, by ASCII code: blanks, quotes, and letters, digits, `_` and `$` in identifiers. */
  lemma Characters(c: char)
    ensures IsSpace(c) <==> c in " \t\r\n"
    ensures IsQuote(c) <==> c in "\"'`"
    ensures IsIdentStart(c) <==> c in "_$" || 65 <= c as int <= 90 || 97 <= c as int <= 122
    ensures IsIdentPart(c) <==> c in "_$" || 65 <= c as int <= 90 || 97 <= c as int <= 122 || 48 <= c as int <= 57
  {
  }

  lemma ImportWord(w: string)
    requires w == "import"
    ensures IdentParts(w) && IsIdentStart(w[0])
  {
  }

  /** `import 'x'` and `import "x"` yield `x`, unless a dot comes before. */
  lemma ImportStatement(w: string, quote: char, body: string, rest: string, prev: Option<char>)
    requires w == "import" && (quote == '"' || quote == '\'') && quote !in body && '\\' !in body
    ensures var behind := " " + ([quote] + body + [quote] + rest);
            Scan(w + behind, prev) == if prev != Some('.') then [body] + Scan(rest, Some(quote)) else Scan(behind, Some('t'))
  {
    var quoted := [quote] + body + [quote] + rest;
    var behind := " " + quoted;
    assert behind[1..] == quoted;
    OneBlank(behind, quote);
    ImportTurn(w, behind, quoted, prev);
    QuotedRead(quote, body, rest);
  }

  lemma QuotedRead(quote: char, body: string, rest: string)
    requires (quote == '"' || quote == '\'') && quote !in body && '\\' !in body
    ensures var quoted := [quote] + body + [quote] + rest;
            StringBody(quoted[1..], quote) == body && SkipString(quoted[1..], quote) == rest
  {
    assert ([quote] + body + [quote] + rest)[1..] == body + [quote] + rest;
    PlainBody(body, quote);
    StringRead(body, quote, rest);
    BodyRead(body, quote, rest);
  }

  lemma ImportTurn(w: string, behind: string, quoted: string, prev: Option<char>)
    requires w == "import" && behind != "" && behind[0] == ' ' && SkipTrivia(behind) == quoted && StartsString(quoted)
    ensures Take(w + behind, prev) ==
            if prev != Some('.') then Turn([StringBody(quoted[1..], quoted[0])], SkipString(quoted[1..], quoted[0]), Some(quoted[0]))
            else Turn([], behind, Some('t'))
  {
    var s := w + behind;
    ImportWord(w);
    WordRead(w, behind);
    assert s[..6] == w && s[6..] == behind && s[5] == 't';
    assert Take(s, prev) == WordTurn(s, prev);
  }

  lemma OneBlank(s: string, quote: char)
    requires |s| > 1 && s[0] == ' ' && s[1] == quote && (quote == '"' || quote == '\'')
    ensures SkipTrivia(s) == s[1..]
  {
    assert TriviaOnce(s) == Some(s[1..]) && TriviaOnce(s[1..]) == None;
  }

  lemma {:induction false} PlainBody(body: string, quote: char)
    requires quote !in body && '\\' !in body
    ensures Closed(body, quote)
  {
    if body != "" {
      PlainBody(body[1..], quote);
    }
  }
}
