/** The earlier pipeline of javpy.py (class `javpy`): a lexer with the same
    ordered alternation but a shorter token table and comment markers that
    simply switch the comment flag, a parser for one `print` statement, and
    an interpreter that outputs the printed text. */
module Legacy {
  import opened Lexing

  datatype Kind = CommentStart | CommentEnd | Print | Number | Ident | Newline | Skip | Mismatch

  /** A token is its kind and its raw lexeme. */
  datatype Token = Token(kind: Kind, text: string)

  /** The "unknown symbol" error, which no input can reach (see LexNeverFails). */
  datatype LexError = UnknownSymbol(symbol: char, position: nat)

  datatype Result<T> = Ok(value: T) | Err(error: LexError)

  /** The token table, in the order its patterns are tried. */
  const TokenSpec: seq<Kind> := [CommentStart, CommentEnd, Print, Number, Ident, Newline, Skip, Mismatch]

  /** Length of the text that the pattern of kind `k` matches at the front of `s`, 0 when none. */
  function MatchKind(k: Kind, s: string): nat
  {
    match k
    case CommentStart => MatchLiteral(s, "<$>")
    case CommentEnd => MatchLiteral(s, "<$!>")
    case Print => MatchKeyword(s, "print")
    case Number => MatchDigits(s)
    case Ident => MatchIdent(s)
    case Newline => MatchNewline(s)
    case Skip => MatchBlanks(s)
    case Mismatch => MatchAny(s)
  }

  lemma MatchKindBounded(k: Kind, s: string)
    ensures MatchKind(k, s) <= |s|
  {
    if k == CommentStart || k == CommentEnd || k == Print {
    }
  }

  /** Tries the kinds of `table` in order; the first whose pattern matches wins. */
  function FirstOf(table: seq<Kind>, s: string): (r: Option<(Kind, nat)>)
    ensures r.Some? ==> r.value.0 in table && 0 < r.value.1 <= |s|
  {
    if table == [] then None
    else
      MatchKindBounded(table[0], s);
      if MatchKind(table[0], s) > 0 then Some((table[0], MatchKind(table[0], s)))
      else FirstOf(table[1..], s)
  }

  /** Ordered alternation: `FirstOf` returns the length its kind's pattern
      matches, and that kind is the first entry of the table that matches. */
  lemma {:induction false} FirstOfIsFirst(table: seq<Kind>, s: string)
    ensures FirstOf(table, s).Some? ==> FirstOf(table, s).value.1 == MatchKind(FirstOf(table, s).value.0, s)
    ensures FirstOf(table, s).Some? ==>
              exists j :: 0 <= j < |table| && table[j] == FirstOf(table, s).value.0 &&
                forall i :: 0 <= i < j ==> MatchKind(table[i], s) == 0
    ensures FirstOf(table, s).None? <==> forall i :: 0 <= i < |table| ==> MatchKind(table[i], s) == 0
  {
    if table != [] && MatchKind(table[0], s) == 0 {
      FirstOfIsFirst(table[1..], s);
      var r := FirstOf(table[1..], s);
      if r.Some? {
        var j :| 0 <= j < |table[1..]| && table[1..][j] == r.value.0 &&
                 forall i :: 0 <= i < j ==> MatchKind(table[1..][i], s) == 0;
        assert table[j + 1] == r.value.0;
        forall i | 0 <= i < j + 1 ensures MatchKind(table[i], s) == 0 {
          if i > 0 { assert table[i] == table[1..][i - 1]; }
        }
      } else {
        forall i | 0 <= i < |table| ensures MatchKind(table[i], s) == 0 {
          if i > 0 { assert table[i] == table[1..][i - 1]; }
        }
      }
    }
  }

  function FirstMatch(s: string): Option<(Kind, nat)>
  {
    FirstOf(TokenSpec, s)
  }

  /** Every character matches a pattern: a newline matches NEWLINE and any
      other character MISMATCH. */
  lemma {:induction false} FirstMatchTotal(s: string)
    requires s != []
    ensures FirstMatch(s).Some?
  {
    FirstOfIsFirst(TokenSpec, s);
    assert TokenSpec[5] == Newline && TokenSpec[7] == Mismatch;
    assert MatchKind(TokenSpec[5], s) > 0 || MatchKind(TokenSpec[7], s) > 0;
  }

  /** `print` followed by a word boundary is the keyword, not an identifier. */
  lemma {:induction false} PrintBeforeIdent(s: string)
    requires "print" <= s && (|s| == 5 || !IsWordChar(s[5]))
    ensures FirstMatch(s) == Some((Print, 5))
  {
    assert s[0] == 'p';
    assert MatchKind(CommentStart, s) == 0 && MatchKind(CommentEnd, s) == 0;
    assert FirstOf(TokenSpec[2..], s) == Some((Print, 5));
    assert FirstOf(TokenSpec[1..], s) == FirstOf(TokenSpec[1..][1..], s);
    assert TokenSpec[1..][1..] == TokenSpec[2..];
  }

  /** A run of digits is a NUMBER, taken whole: NUMBER is tried before IDENT. */
  lemma {:induction false} DigitsAreNumbers(s: string)
    requires s != [] && IsDigit(s[0])
    ensures FirstMatch(s) == Some((Number, DigitRun(s)))
  {
    assert MatchKind(CommentStart, s) == 0 && MatchKind(CommentEnd, s) == 0 && MatchKind(Print, s) == 0;
    assert FirstOf(TokenSpec[3..], s) == Some((Number, DigitRun(s)));
    assert FirstOf(TokenSpec[2..], s) == FirstOf(TokenSpec[2..][1..], s);
    assert TokenSpec[2..][1..] == TokenSpec[3..];
    assert FirstOf(TokenSpec[1..], s) == FirstOf(TokenSpec[1..][1..], s);
    assert TokenSpec[1..][1..] == TokenSpec[2..];
  }

  /** The tokenizer's local variables between two iterations of its loop
      (`line_num` is set but never used, so it is not kept). */
  datatype LexState = LexState(pos: nat, inComment: bool, tokens: seq<Token>)

  /** The effect of a lexeme of kind `k`: the markers switch the comment
      flag whatever its value; other lexemes outside a comment, except blanks
      and newlines, are appended with their raw text. */
  function Advance(st: LexState, k: Kind, lexeme: string): (r: LexState)
    ensures r.pos == st.pos + |lexeme|
    ensures r.inComment == (if k == CommentStart then true else if k == CommentEnd then false else st.inComment)
    ensures st.inComment || k in {CommentStart, CommentEnd, Skip, Newline} ==> r.tokens == st.tokens
    ensures !st.inComment && k !in {CommentStart, CommentEnd, Skip, Newline} ==> r.tokens == st.tokens + [Token(k, lexeme)]
  {
    if k == CommentStart then st.(pos := st.pos + |lexeme|, inComment := true)
    else if k == CommentEnd then st.(pos := st.pos + |lexeme|, inComment := false)
    else if !st.inComment && k != Skip && k != Newline then
      st.(pos := st.pos + |lexeme|, tokens := st.tokens + [Token(k, lexeme)])
    else st.(pos := st.pos + |lexeme|)
  }

  function Step(code: string, st: LexState): (r: Result<LexState>)
    requires st.pos < |code|
    ensures r.Ok? ==> st.pos < r.value.pos <= |code|
  {
    var s := code[st.pos..];
    match FirstMatch(s)
    case None =>
      if !st.inComment then Err(UnknownSymbol(code[st.pos], st.pos + 1))
      else Ok(st.(pos := st.pos + 1))
    case Some((k, n)) => Ok(Advance(st, k, s[..n]))
  }

  function LexFrom(code: string, st: LexState): Result<seq<Token>>
    requires st.pos <= |code|
    decreases |code| - st.pos
  {
    if st.pos == |code| then Ok(st.tokens)
    else
      match Step(code, st)
      case Err(e) => Err(e)
      case Ok(st') => LexFrom(code, st')
  }

  const Start := LexState(0, false, [])

  /** What `javpy.tokenize` returns or raises for `code`. */
  function Lex(code: string): Result<seq<Token>>
  {
    LexFrom(code, Start)
  }

  lemma StepMatched(code: string, st: LexState, k: Kind, n: nat)
    requires st.pos < |code| && FirstMatch(code[st.pos..]) == Some((k, n))
    ensures st.pos + n <= |code|
    ensures Step(code, st) == Ok(Advance(st, k, code[st.pos..st.pos + n]))
  {
    assert code[st.pos..][..n] == code[st.pos..st.pos + n];
  }

  /** The inner `for` loop: the patterns are tried in table order. */
  method MatchAt(table: seq<Kind>, s: string) returns (m: Option<(Kind, nat)>)
    ensures m == FirstOf(table, s)
  {
    var i := 0;
    while i < |table|
      invariant 0 <= i <= |table|
      invariant FirstOf(table[i..], s) == FirstOf(table, s)
    {
      assert table[i..][1..] == table[i + 1..];
      var n := MatchKind(table[i], s);
      if n > 0 {
        return Some((table[i], n));
      }
      i := i + 1;
    }
    return None;
  }

  /** The handling of one matched lexeme of kind `k`. */
  method Consume(st: LexState, k: Kind, lexeme: string) returns (r: LexState)
    ensures r == Advance(st, k, lexeme)
  {
    var tokens, inComment := st.tokens, st.inComment;
    if k == CommentStart {
      inComment := true;
    } else if k == CommentEnd {
      inComment := false;
    } else if !inComment && k != Skip && k != Newline {
      tokens := tokens + [Token(k, lexeme)];
    }
    return LexState(st.pos + |lexeme|, inComment, tokens);
  }

  /** One iteration of `tokenize`'s `while` loop. */
  method LexOne(code: string, st: LexState) returns (r: Result<LexState>)
    requires st.pos < |code|
    ensures r == Step(code, st)
  {
    var m := MatchAt(TokenSpec, code[st.pos..]);
    if m.None? {
      if !st.inComment {
        return Err(UnknownSymbol(code[st.pos], st.pos + 1));
      }
      return Ok(st.(pos := st.pos + 1));
    }
    var k, n := m.value.0, m.value.1;
    StepMatched(code, st, k, n);
    var next := Consume(st, k, code[st.pos..st.pos + n]);
    return Ok(next);
  }

  /** `javpy.tokenize`. */
  method Tokenize(code: string) returns (r: Result<seq<Token>>)
    ensures r == Lex(code)
  {
    var st := Start;
    while st.pos < |code|
      invariant st.pos <= |code|
      invariant LexFrom(code, st) == Lex(code)
      decreases |code| - st.pos
    {
      var next := LexOne(code, st);
      if next.Err? {
        return Err(next.error);
      }
      st := next.value;
    }
    return Ok(st.tokens);
  }

  /** `javpy.tokenize` never raises: with MISMATCH matching any character
      but a newline, the unknown-symbol branch cannot be reached, and comment
      markers are never errors, however they nest or pair. */
  lemma {:induction false} LexNeverFails(code: string)
    ensures Lex(code).Ok?
  {
    LexFromNeverFails(code, Start);
  }

  lemma {:induction false} LexFromNeverFails(code: string, st: LexState)
    requires st.pos <= |code|
    ensures LexFrom(code, st).Ok?
    decreases |code| - st.pos
  {
    if st.pos < |code| {
      FirstMatchTotal(code[st.pos..]);
      LexFromNeverFails(code, Step(code, st).value);
    }
  }

  /** What an emitted token looks like: the keyword `print`, a run of digits,
      an identifier, or one stray character other than a newline. Comment
      markers, blanks and newlines are never emitted. */
  predicate Shaped(t: Token)
  {
    match t.kind
    case Print => t.text == "print"
    case Number => t.text != [] && forall i :: 0 <= i < |t.text| ==> IsDigit(t.text[i])
    case Ident => t.text != [] && (IsLetter(t.text[0]) || t.text[0] == '_') &&
                  forall i :: 0 <= i < |t.text| ==> IsWordChar(t.text[i])
    case Mismatch => |t.text| == 1 && t.text[0] != '\n'
    case _ => false
  }

  /** The text a pattern matched has that pattern's shape. */
  lemma LexemeShaped(k: Kind, s: string, n: nat)
    requires 0 < n == MatchKind(k, s) && k !in {CommentStart, CommentEnd, Skip, Newline}
    ensures n <= |s| && Shaped(Token(k, s[..n]))
  {
    MatchKindBounded(k, s);
    assert forall i :: 0 <= i < n ==> s[..n][i] == s[i];
  }

  /** The lexeme that the winning pattern matched has its pattern's shape. */
  lemma {:induction false} WinnerShaped(s: string)
    requires s != []
    ensures FirstMatch(s).Some?
    ensures var (k, n) := FirstMatch(s).value;
            k !in {CommentStart, CommentEnd, Skip, Newline} ==> Shaped(Token(k, s[..n]))
  {
    FirstMatchTotal(s);
    FirstOfIsFirst(TokenSpec, s);
    var (k, n) := FirstMatch(s).value;
    if k !in {CommentStart, CommentEnd, Skip, Newline} {
      LexemeShaped(k, s, n);
    }
  }

  lemma {:induction false} TokensShapedFrom(code: string, st: LexState)
    requires st.pos <= |code|
    requires forall i :: 0 <= i < |st.tokens| ==> Shaped(st.tokens[i])
    ensures LexFrom(code, st).Ok?
    ensures forall i :: 0 <= i < |LexFrom(code, st).value| ==> Shaped(LexFrom(code, st).value[i])
    decreases |code| - st.pos
  {
    LexFromNeverFails(code, st);
    if st.pos < |code| {
      var s := code[st.pos..];
      WinnerShaped(s);
      var (k, n) := FirstMatch(s).value;
      var st' := Step(code, st).value;
      assert st' == Advance(st, k, s[..n]);
      TokensShapedFrom(code, st');
    }
  }

  /** Every emitted token carries its raw lexeme, in its pattern's shape. */
  lemma TokensShaped(code: string)
    ensures Lex(code).Ok?
    ensures forall i :: 0 <= i < |Lex(code).value| ==> Shaped(Lex(code).value[i])
  {
    TokensShapedFrom(code, Start);
  }

  /** A step taken inside a comment emits nothing, and a comment marker
      switches the flag whatever it was. */
  lemma CommentStep(code: string, st: LexState)
    requires st.pos < |code| && Step(code, st).Ok?
    ensures st.inComment ==> Step(code, st).value.tokens == st.tokens
    ensures FirstMatch(code[st.pos..]).Some? && FirstMatch(code[st.pos..]).value.0 == CommentStart ==>
            Step(code, st).value.inComment
    ensures FirstMatch(code[st.pos..]).Some? && FirstMatch(code[st.pos..]).value.0 == CommentEnd ==>
            !Step(code, st).value.inComment
  {
  }

  // The parser and the interpreter.

  /** `javpy.Node`: a node type and its value. */
  datatype Node = Node(nodeType: string, value: string)

  /** What `javpy.parse` returns: only the first statement is looked at;
      `print` followed by an IDENT or a NUMBER gives a Print node holding
      that token's lexeme, and every other case gives None. */
  function ParseTokens(ts: seq<Token>): (r: Option<Node>)
    ensures r.Some? <==> |ts| >= 2 && ts[0].kind == Print && ts[1].kind in {Ident, Number}
    ensures r.Some? ==> r.value == Node("Print", ts[1].text)
  {
    if ts == [] then None
    else if ts[0].kind == Print then
      if |ts| >= 2 && (ts[1].kind == Ident || ts[1].kind == Number) then Some(Node("Print", ts[1].text))
      else None
    else None
  }

  /** Nothing after the first two tokens matters. */
  lemma {:induction false} OnlyFirstStatement(ts: seq<Token>, more: seq<Token>)
    requires |ts| >= 2
    ensures ParseTokens(ts + more) == ParseTokens(ts)
  {
    assert (ts + more)[0] == ts[0] && (ts + more)[1] == ts[1];
  }

  /** The shared token list of one call of `javpy.parse`. */
  class Parser {
    var tokens: seq<Token>

    constructor (ts: seq<Token>)
      ensures tokens == ts
    {
      tokens := ts;
    }

    /** `match(expected_type)`: pops and returns the head when it has the
        expected kind, and otherwise leaves the list as it is. */
    method Match(expected: Kind) returns (t: Option<Token>)
      modifies this
      ensures old(tokens) != [] && old(tokens)[0].kind == expected ==>
                t == Some(old(tokens)[0]) && tokens == old(tokens)[1..]
      ensures !(old(tokens) != [] && old(tokens)[0].kind == expected) ==>
                t == None && tokens == old(tokens)
    {
      if tokens != [] && tokens[0].kind == expected {
        t := Some(tokens[0]);
        tokens := tokens[1..];
      } else {
        t := None;
      }
    }

    /** `parse_print`. */
    method ParsePrint() returns (r: Option<Node>)
      modifies this
      ensures r == (if old(tokens) != [] && old(tokens)[0].kind == Print then ParseTokens(old(tokens)) else None)
      ensures r.Some? ==> |old(tokens)| >= 2 && tokens == old(tokens)[2..]
      ensures r.None? && old(tokens) != [] && old(tokens)[0].kind == Print ==> tokens == old(tokens)[1..]
      ensures !(old(tokens) != [] && old(tokens)[0].kind == Print) ==> tokens == old(tokens)
    {
      var keyword := Match(Print);
      if keyword.Some? {
        var value := Match(Ident);
        if value.None? {
          value := Match(Number);
        }
        if value.Some? {
          return Some(Node("Print", value.value.text));
        }
      }
      return None;
    }

    /** `javpy.parse`. */
    method Parse() returns (r: Option<Node>)
      modifies this
      ensures r == ParseTokens(old(tokens))
      ensures r.Some? ==> |old(tokens)| >= 2 && tokens == old(tokens)[2..]
      ensures r.None? && old(tokens) != [] && old(tokens)[0].kind == Print ==> tokens == old(tokens)[1..]
      ensures !(old(tokens) != [] && old(tokens)[0].kind == Print) ==> tokens == old(tokens)
    {
      if tokens == [] {
        return None;
      }
      r := None;
      if tokens[0].kind == Print {
        r := ParsePrint();
      }
    }
  }

  /** `javpy.interpret`, with the printed text appended to `output`. */
  class Interpreter {
    var output: seq<string>

    constructor ()
      ensures output == []
    {
      output := [];
    }

    /** The value is output exactly when the node is a Print node. */
    method Interpret(ast: Option<Node>) returns ()
      modifies this
      ensures ast.Some? && ast.value.nodeType == "Print" ==> output == old(output) + [ast.value.value]
      ensures !(ast.Some? && ast.value.nodeType == "Print") ==> output == old(output)
    {
      if ast.None? {
        return;
      }
      if ast.value.nodeType == "Print" {
        output := output + [ast.value.value];
      }
    }
  }
}
