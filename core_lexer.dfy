/** The lexer of `JavpyCore` (javpy_core.py): ordered alternation over the
    token table, a comment flag that discards everything between `<$>` and
    `<$!>`, and errors for nested, unmatched and unclosed comment markers. */
module CoreLexer {
  import opened Lexing

  datatype Kind =
    | CommentStart | CommentEnd | Print | Const | Colon | Number | String
    | Operator | Ident | Newline | Skip | Mismatch

  /** A token's value: raw text, or the number a decimal lexeme was
      converted to at lex time. */
  datatype Payload = Text(text: string) | Float(x: real)

  datatype Token = Token(kind: Kind, value: Payload)

  /** The lexer's errors, each with the line it reports. The last one is the
      "unknown symbol" branch, which no input can reach (see NeverUnknownSymbol). */
  datatype LexError =
    | UnmatchedCommentEnd(line: nat)
    | NestedComment(line: nat)
    | UnexpectedCommentEnd(line: nat)
    | UnclosedComment(line: nat)
    | UnknownSymbol(symbol: char, line: nat, column: nat)

  datatype Result<T> = Ok(value: T) | Err(error: LexError)

  /** The token table, in the order its patterns are tried. */
  const TokenSpec: seq<Kind> :=
    [CommentStart, CommentEnd, Print, Const, Colon, Number, String, Operator, Ident, Newline, Skip, Mismatch]

  /** Length of the text that the pattern of kind `k` matches at the front of `s`, 0 when none. */
  function MatchKind(k: Kind, s: string): nat
  {
    match k
    case CommentStart => MatchLiteral(s, "<$>")
    case CommentEnd => MatchLiteral(s, "<$!>")
    case Print => MatchKeyword(s, "print")
    case Const => MatchKeyword(s, "const")
    case Colon => MatchLiteral(s, ":")
    case Number => MatchDecimal(s)
    case String => MatchString(s)
    case Operator => MatchOperator(s)
    case Ident => MatchIdent(s)
    case Newline => MatchNewline(s)
    case Skip => MatchBlanks(s)
    case Mismatch => MatchAny(s)
  }

  lemma MatchKindBounded(k: Kind, s: string)
    ensures MatchKind(k, s) <= |s|
  {
    if k == CommentStart || k == CommentEnd || k == Colon || k == Print || k == Const {
    }
  }

  /** Tries the kinds of `table` in order; the first whose pattern matches wins. */
  function FirstOf(table: seq<Kind>, s: string): (r: Option<(Kind, nat)>)
    ensures r.Some? ==> r.value.0 in table && 0 < r.value.1 <= |s|
  {
    if table == [] then None
    else
      MatchKindBounded(table[0], s);
      if MatchKind(table[0], s) > 0 then Some((table[0], MatchKind(table[0], s)))
      else FirstOf(table[1..], s)
  }

  /** The length `FirstOf` returns is the one its kind's pattern matches. */
  lemma {:induction false} FirstOfLength(table: seq<Kind>, s: string)
    ensures FirstOf(table, s).Some? ==> FirstOf(table, s).value.1 == MatchKind(FirstOf(table, s).value.0, s)
  {
    if table != [] && MatchKind(table[0], s) == 0 {
      FirstOfLength(table[1..], s);
    }
  }

  /** Ordered alternation: the kind `FirstOf` returns is the first entry of
      the table whose pattern matches, and it returns nothing exactly when no
      entry matches. */
  lemma {:induction false} FirstOfIsFirst(table: seq<Kind>, s: string)
    ensures FirstOf(table, s).Some? ==> FirstOf(table, s).value.1 == MatchKind(FirstOf(table, s).value.0, s)
    ensures FirstOf(table, s).Some? ==>
              exists j :: 0 <= j < |table| && table[j] == FirstOf(table, s).value.0 &&
                forall i :: 0 <= i < j ==> MatchKind(table[i], s) == 0
    ensures FirstOf(table, s).None? <==> forall i :: 0 <= i < |table| ==> MatchKind(table[i], s) == 0
  {
    if table != [] && MatchKind(table[0], s) == 0 {
      FirstOfIsFirst(table[1..], s);
      var r := FirstOf(table[1..], s);
      if r.Some? {
        var j :| 0 <= j < |table[1..]| && table[1..][j] == r.value.0 &&
                 forall i :: 0 <= i < j ==> MatchKind(table[1..][i], s) == 0;
        assert table[j + 1] == r.value.0;
        forall i | 0 <= i < j + 1 ensures MatchKind(table[i], s) == 0 {
          if i > 0 { assert table[i] == table[1..][i - 1]; }
        }
      } else {
        forall i | 0 <= i < |table| ensures MatchKind(table[i], s) == 0 {
          if i > 0 { assert table[i] == table[1..][i - 1]; }
        }
      }
    }
  }

  /** The pattern that wins at the front of `s`, and the length it matches. */
  function FirstMatch(s: string): Option<(Kind, nat)>
  {
    FirstOf(TokenSpec, s)
  }

  /** The token table has a pattern for every character: a newline matches
      NEWLINE and every other character matches MISMATCH. */
  lemma {:induction false} FirstMatchTotal(s: string)
    requires s != []
    ensures FirstMatch(s).Some?
  {
    FirstOfIsFirst(TokenSpec, s);
    assert TokenSpec[9] == Newline && TokenSpec[11] == Mismatch;
    assert MatchKind(TokenSpec[9], s) > 0 || MatchKind(TokenSpec[11], s) > 0;
  }

  /** `print` and `const` followed by a word boundary are keywords: they are
      tried before identifiers, so they win. */
  lemma {:induction false} KeywordsWin(s: string, kw: string)
    requires kw == "print" || kw == "const"
    requires kw <= s && (|s| == |kw| || !IsWordChar(s[|kw|]))
    ensures FirstMatch(s) == Some((if kw == "print" then Print else Const, 5))
  {
    assert s[0] == kw[0];
    assert MatchKind(CommentStart, s) == 0 && MatchKind(CommentEnd, s) == 0;
    var want := if kw == "print" then Print else Const;
    if kw == "const" {
      assert MatchKind(Print, s) == 0;
      assert FirstOf(TokenSpec[3..], s) == Some((Const, 5));
      assert FirstOf(TokenSpec[2..], s) == FirstOf(TokenSpec[2..][1..], s);
    } else {
      assert FirstOf(TokenSpec[2..], s) == Some((Print, 5));
    }
    assert FirstOf(TokenSpec[2..], s) == Some((want, 5));
    assert FirstOf(TokenSpec[1..], s) == FirstOf(TokenSpec[1..][1..], s);
    assert TokenSpec[1..][1..] == TokenSpec[2..];
  }

  /** Entries of the table that do not match can be skipped. */
  lemma {:induction false} FirstOfSkip(table: seq<Kind>, s: string, j: nat)
    requires j <= |table| && forall i :: 0 <= i < j ==> MatchKind(table[i], s) == 0
    ensures FirstOf(table, s) == FirstOf(table[j..], s)
  {
    if j > 0 {
      assert MatchKind(table[0], s) == 0;
      FirstOfSkip(table[1..], s, j - 1);
      assert table[1..][j - 1..] == table[j..];
    }
  }

  /** `<$>` is tried first, so it wins wherever it occurs; `<$!>` wins
      wherever it occurs, since `<$>` cannot match there. */
  lemma CommentMarkersWin(s: string)
    ensures "<$>" <= s ==> FirstMatch(s) == Some((CommentStart, 3))
    ensures "<$!>" <= s ==> FirstMatch(s) == Some((CommentEnd, 4))
  {
    if "<$!>" <= s {
      assert s[2] == '!';
      assert MatchKind(CommentStart, s) == 0;
      FirstOfSkip(TokenSpec, s, 1);
    }
  }

  /** A `<<…>>` literal with no `>` inside lexes as one STRING: the
      patterns tried before it cannot match a text that starts with `<<`. */
  lemma StringLiteralsWin(s: string, m: nat)
    requires 4 <= m <= |s| && s[..2] == "<<" && s[m - 2..m] == ">>"
    requires forall i :: 2 <= i < m - 2 ==> s[i] != '>'
    ensures FirstMatch(s) == Some((String, m))
  {
    StringLiteralMatched(s, m);
    assert s[0] == '<' && s[1] == '<';
    assert !("<$>" <= s) && !("<$!>" <= s) && !(":" <= s) && !("print" <= s) && !("const" <= s);
    forall i | 0 <= i < 6 ensures MatchKind(TokenSpec[i], s) == 0 {
    }
    FirstOfSkip(TokenSpec, s, 6);
    assert TokenSpec[6..][0] == String;
  }

  /** A newline is matched by NEWLINE, on its own: no earlier pattern
      accepts it. */
  lemma NewlineWins(s: string)
    requires s != [] && s[0] == '\n'
    ensures FirstMatch(s) == Some((Newline, 1))
  {
    assert !("<$>" <= s) && !("<$!>" <= s) && !(":" <= s) && !("print" <= s) && !("const" <= s);
    assert !("<<" <= s);
    forall i | 0 <= i < 9 ensures MatchKind(TokenSpec[i], s) == 0 {
    }
    FirstOfSkip(TokenSpec, s, 9);
    assert TokenSpec[9..][0] == Newline;
  }

  /** An identifier never has the text of a keyword: where `print` or `const`
      would be matched as an identifier, it is matched as a keyword first. */
  lemma {:induction false} IdentIsNeverKeyword(s: string)
    requires FirstMatch(s).Some? && FirstMatch(s).value.0 == Ident
    ensures s[..FirstMatch(s).value.1] != "print" && s[..FirstMatch(s).value.1] != "const"
  {
    var n := FirstMatch(s).value.1;
    FirstOfIsFirst(TokenSpec, s);
    assert MatchIdent(s) == n;
    if s[..n] == "print" || s[..n] == "const" {
      var kw := s[..n];
      assert kw <= s && (|s| == |kw| || !IsWordChar(s[|kw|]));
      KeywordsWin(s, kw);
      assert false;
    }
  }

  /** The token emitted for a lexeme of kind `k`: STRING loses its `<<`/`>>`
      delimiters, a NUMBER containing a dot is converted, everything else
      keeps its text. */
  function Emit(k: Kind, lexeme: string): (t: Token)
    ensures t.kind == k
    ensures k == String && |lexeme| >= 4 ==> t.value.Text? && lexeme == lexeme[..2] + t.value.text + lexeme[|lexeme| - 2..]
    ensures k == Number ==> (t.value.Float? <==> Contains(lexeme, "."))
    ensures k != String && (k != Number || !Contains(lexeme, ".")) ==> t.value == Text(lexeme)
  {
    if k == String then Token(String, Text(StripDelimiters(lexeme)))
    else if k == Number && Contains(lexeme, ".") then Token(Number, Float(DecimalValue(lexeme)))
    else Token(k, Text(lexeme))
  }

  /** The tokenizer's local variables between two iterations of its loop. */
  datatype LexState = LexState(pos: nat, inComment: bool, line: nat, commentLine: nat, tokens: seq<Token>)

  /** Kinds that are never appended to the token list. */
  predicate Silent(k: Kind)
  {
    k == CommentStart || k == CommentEnd || k == Skip || k == Newline
  }

  /** The effect of the lexeme `lexeme` of kind `k` on the loop's state. */
  function Advance(st: LexState, k: Kind, lexeme: string): (r: Result<LexState>)
    ensures r.Ok? ==> r.value.pos == st.pos + |lexeme|
  {
    if k == CommentStart && st.inComment then Err(NestedComment(st.line))
    else if k == CommentEnd && !st.inComment then Err(UnexpectedCommentEnd(st.line))
    else
      Ok(LexState(
        st.pos + |lexeme|,
        if k == CommentStart then true else if k == CommentEnd then false else st.inComment,
        if lexeme == "\n" then st.line + 1 else st.line,
        if k == CommentStart then st.line else st.commentLine,
        if !st.inComment && !Silent(k) then st.tokens + [Emit(k, lexeme)] else st.tokens))
  }

  /** One iteration of the loop at position `st.pos`. */
  function Step(code: string, st: LexState): (r: Result<LexState>)
    requires st.pos < |code|
    ensures r.Ok? ==> st.pos < r.value.pos <= |code|
  {
    var s := code[st.pos..];
    match FirstMatch(s)
    case None =>
      if !st.inComment then Err(UnknownSymbol(code[st.pos], st.line, st.pos + 1))
      else Ok(st.(pos := st.pos + 1))
    case Some((k, n)) => Advance(st, k, s[..n])
  }

  /** The rest of the loop from state `st`, then the check for an unclosed comment. */
  function LexFrom(code: string, st: LexState): Result<seq<Token>>
    requires st.pos <= |code|
    decreases |code| - st.pos
  {
    if st.pos == |code| then
      if st.inComment then Err(UnclosedComment(st.commentLine)) else Ok(st.tokens)
    else
      match Step(code, st)
      case Err(e) => Err(e)
      case Ok(st') => LexFrom(code, st')
  }

  const Start := LexState(0, false, 1, 0, [])

  /** A step in which pattern `k` matched `n` characters. */
  lemma StepMatched(code: string, st: LexState, k: Kind, n: nat)
    requires st.pos < |code| && FirstMatch(code[st.pos..]) == Some((k, n))
    ensures st.pos + n <= |code|
    ensures Step(code, st) == Advance(st, k, code[st.pos..st.pos + n])
  {
    assert code[st.pos..][..n] == code[st.pos..st.pos + n];
  }

  /** What `JavpyCore.tokenize` returns or raises for `code`: a `<$!>` in a
      text without any `<$>` is rejected before lexing, with the line of the
      first `<$!>`; otherwise the loop runs from the start. */
  function Lex(code: string): Result<seq<Token>>
  {
    match Find(code, "<$!>")
    case Some(i) =>
      if !Contains(code, "<$>") then Err(UnmatchedCommentEnd(CountNewlines(code[..i]) + 1))
      else LexFrom(code, Start)
    case None => LexFrom(code, Start)
  }

  /** The inner `for` loop of `tokenize`: the patterns of the token table are
      tried in order and the first one that matches is taken. */
  method MatchAt(table: seq<Kind>, s: string) returns (m: Option<(Kind, nat)>)
    ensures m == FirstOf(table, s)
  {
    var i := 0;
    while i < |table|
      invariant 0 <= i <= |table|
      invariant FirstOf(table[i..], s) == FirstOf(table, s)
    {
      assert table[i..][1..] == table[i + 1..];
      var n := MatchKind(table[i], s);
      if n > 0 {
        return Some((table[i], n));
      }
      i := i + 1;
    }
    return None;
  }

  /** The handling of one matched lexeme of kind `k`: the comment checks,
      the token it appends and the line it advances. */
  method Consume(st: LexState, k: Kind, lexeme: string) returns (r: Result<LexState>)
    ensures r == Advance(st, k, lexeme)
  {
    var tokens, inComment, lineNum, pos, commentStartLine := st.tokens, st.inComment, st.line, st.pos, st.commentLine;
    if k == CommentStart {
      if inComment {
        return Err(NestedComment(lineNum));
      }
      inComment := true;
      commentStartLine := lineNum;
    } else if k == CommentEnd {
      if !inComment {
        return Err(UnexpectedCommentEnd(lineNum));
      }
      inComment := false;
    } else if !inComment && k != Skip && k != Newline {
      if k == String {
        tokens := tokens + [Token(k, Text(StripDelimiters(lexeme)))];
      } else if k == Number && Contains(lexeme, ".") {
        tokens := tokens + [Token(k, Float(DecimalValue(lexeme)))];
      } else {
        tokens := tokens + [Token(k, Text(lexeme))];
      }
    }
    pos := pos + |lexeme|;
    if lexeme == "\n" {
      lineNum := lineNum + 1;
    }
    return Ok(LexState(pos, inComment, lineNum, commentStartLine, tokens));
  }

  /** The body of `tokenize`'s loop at position `st.pos`: the pattern that
      wins there, then either the unmatched-character branch or `Consume`. */
  method LexOne(code: string, st: LexState) returns (r: Result<LexState>)
    requires st.pos < |code|
    ensures r == Step(code, st)
  {
    var m := MatchAt(TokenSpec, code[st.pos..]);
    if m.None? {
      if !st.inComment {
        return Err(UnknownSymbol(code[st.pos], st.line, st.pos + 1));
      }
      return Ok(st.(pos := st.pos + 1));
    }
    var k, n := m.value.0, m.value.1;
    StepMatched(code, st, k, n);
    r := Consume(st, k, code[st.pos..st.pos + n]);
  }

  /** `JavpyCore.tokenize`: the up-front check for a lone `<$!>`, the loop
      over positions, and the check for a comment left open. */
  method Tokenize(code: string) returns (r: Result<seq<Token>>)
    ensures r == Lex(code)
  {
    var endMarker := Find(code, "<$!>");
    if endMarker.Some? && !Contains(code, "<$>") {
      return Err(UnmatchedCommentEnd(CountNewlines(code[..endMarker.value]) + 1));
    }

    var st := Start;
    while st.pos < |code|
      invariant st.pos <= |code|
      invariant LexFrom(code, st) == Lex(code)
      decreases |code| - st.pos
    {
      var next := LexOne(code, st);
      if next.Err? {
        return Err(next.error);
      }
      st := next.value;
    }

    if st.inComment {
      return Err(UnclosedComment(st.commentLine));
    }
    return Ok(st.tokens);
  }

  // Properties of the lexer.

  /** The "unknown symbol" error is never raised: every character matches a pattern. */
  lemma {:induction false} NeverUnknownSymbol(code: string)
    ensures !(Lex(code).Err? && Lex(code).error.UnknownSymbol?)
  {
    NeverUnknownFrom(code, Start);
  }

  lemma {:induction false} NeverUnknownFrom(code: string, st: LexState)
    requires st.pos <= |code|
    ensures !(LexFrom(code, st).Err? && LexFrom(code, st).error.UnknownSymbol?)
    decreases |code| - st.pos
  {
    if st.pos < |code| {
      FirstMatchTotal(code[st.pos..]);
      var r := Step(code, st);
      if r.Ok? {
        NeverUnknownFrom(code, r.value);
      }
    }
  }

  /** The emitted tokens never include comment markers, blanks or newlines. */
  lemma {:induction false} TokensAreNeverSilent(code: string)
    requires Lex(code).Ok?
    ensures forall t :: t in Lex(code).value ==> !Silent(t.kind)
  {
    if !(Find(code, "<$!>").Some? && !Contains(code, "<$>")) {
      TokensAreNeverSilentFrom(code, Start);
    }
  }

  lemma {:induction false} TokensAreNeverSilentFrom(code: string, st: LexState)
    requires st.pos <= |code|
    requires forall t :: t in st.tokens ==> !Silent(t.kind)
    requires LexFrom(code, st).Ok?
    ensures forall t :: t in LexFrom(code, st).value ==> !Silent(t.kind)
    decreases |code| - st.pos
  {
    if st.pos < |code| {
      var st' := Step(code, st).value;
      TokensAreNeverSilentFrom(code, st');
    }
  }

  /** Inside a comment nothing is emitted: a step taken while `in_comment`
      leaves the token list as it was. */
  lemma CommentStepEmitsNothing(code: string, st: LexState)
    requires st.pos < |code| && st.inComment
    requires Step(code, st).Ok?
    ensures Step(code, st).value.tokens == st.tokens
  {
  }

  /** A comment that is open at position `st.pos`, with no `<$!>` anywhere
      after it, is reported as unclosed at the line it was opened on (unless
      a nested `<$>` is reported first). */
  lemma {:induction false} UnclosedCommentReported(code: string, st: LexState)
    requires st.pos <= |code| && st.inComment
    requires forall i: nat :: st.pos <= i ==> !OccursAt(code, "<$!>", i)
    ensures LexFrom(code, st).Err?
    ensures LexFrom(code, st).error == UnclosedComment(st.commentLine) || LexFrom(code, st).error.NestedComment?
    decreases |code| - st.pos
  {
    if st.pos < |code| {
      var k := NotCommentEnd(code, st.pos);
      var r := Step(code, st);
      if r.Ok? {
        UnclosedCommentReported(code, r.value);
      }
    }
  }

  /** THE COMMENT STATE MACHINE. A `<$>` inside a comment and a `<$!>`
      outside one are errors at the current line. Otherwise `<$>` opens a
      comment and records its line, and `<$!>` closes it; neither emits a
      token or moves to another line. */
  lemma CommentMarkerStep(code: string, st: LexState)
    requires st.pos < |code|
    ensures OccursAt(code, "<$>", st.pos) ==>
      Step(code, st) == if st.inComment then Err(NestedComment(st.line))
                        else Ok(st.(pos := st.pos + 3, inComment := true, commentLine := st.line))
    ensures OccursAt(code, "<$!>", st.pos) ==>
      Step(code, st) == if st.inComment then Ok(st.(pos := st.pos + 4, inComment := false))
                        else Err(UnexpectedCommentEnd(st.line))
  {
    var s := code[st.pos..];
    CommentMarkersWin(s);
    if OccursAt(code, "<$>", st.pos) {
      assert s[..3] == code[st.pos..st.pos + 3];
      StepMatched(code, st, CommentStart, 3);
    } else if OccursAt(code, "<$!>", st.pos) {
      assert s[..4] == code[st.pos..st.pos + 4];
      StepMatched(code, st, CommentEnd, 4);
    }
  }

  /** The up-front check: a text with a `<$!>` and no `<$>` is rejected
      before the loop runs, with the line of its first `<$!>`; any other text
      goes to the loop. */
  lemma LoneCommentEndRejected(code: string, i: nat)
    requires OccursAt(code, "<$!>", i) && forall j: nat :: j < i ==> !OccursAt(code, "<$!>", j)
    ensures (forall j: nat :: !OccursAt(code, "<$>", j)) ==> Lex(code) == Err(UnmatchedCommentEnd(CountNewlines(code[..i]) + 1))
    ensures (exists j: nat :: OccursAt(code, "<$>", j)) ==> Lex(code) == LexFrom(code, Start)
  {
    var f := Find(code, "<$!>");
    assert f.Some?;
    assert f.value == i;
  }

  /** `line_num` goes up by one exactly when the lexeme taken begins with a
      newline, so a newline inside a STRING lexeme is not counted. */
  lemma LineAdvance(code: string, st: LexState)
    requires st.pos < |code| && Step(code, st).Ok?
    ensures Step(code, st).value.line == st.line + (if code[st.pos] == '\n' then 1 else 0)
  {
    var s := code[st.pos..];
    FirstMatchTotal(s);
    var (k, n) := FirstMatch(s).value;
    StepMatched(code, st, k, n);
    if code[st.pos] == '\n' {
      NewlineWins(s);
      assert code[st.pos..st.pos + n] == "\n";
    } else {
      assert code[st.pos..st.pos + n][0] == code[st.pos];
    }
  }

  /** Where `<$!>` does not occur, the pattern that wins is not COMMENT_END. */
  lemma NotCommentEnd(code: string, pos: nat) returns (k: Kind)
    requires pos < |code| && !OccursAt(code, "<$!>", pos)
    ensures FirstMatch(code[pos..]).Some? && FirstMatch(code[pos..]).value.0 == k && k != CommentEnd
  {
    var s := code[pos..];
    FirstMatchTotal(s);
    k := FirstMatch(s).value.0;
    FirstOfLength(TokenSpec, s);
  }
}

