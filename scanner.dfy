/** The character scanner of src/scanner.rs.

    The peekable character iterator is an index into the source text; the
    line counter is a number carried from step to step. Character classes
    are restricted to ASCII, and the parsing of number lexemes is a
    parameter: it stands for trying parse::<f32> and then parse::<isize>. */
module Scanner {
  import opened Tokens
  import opened Results

  // ------------------------------------------------------ character classes

  predicate IsDigit(c: char) {
    '0' <= c <= '9'
  }

  predicate IsAlpha(c: char) {
    'a' <= c <= 'z' || 'A' <= c <= 'Z'
  }

  predicate IsSpace(c: char) {
    c == ' ' || c == '\t' || c == '\n' || c == '\r' || c == '\U{B}' || c == '\U{C}'
  }

  predicate IsNewLine(c: char) {
    c == '\n' || c == '\r'
  }

  predicate IsIdentChar(c: char) {
    IsAlpha(c) || IsDigit(c) || c == '_'
  }

  predicate IsNumberChar(c: char) {
    IsDigit(c) || c == '.'
  }

  predicate NotQuote(c: char) {
    c != '"'
  }

  predicate NotLineFeed(c: char) {
    c != '\n'
  }

  /** Letters and digits start neither an operator, a comment, a string nor a line break. */
  lemma PlainStart(c: char)
    requires IsAlpha(c) || IsDigit(c)
    ensures !IsNewLine(c) && SingleChar(c).None? && c != '#' && WithEquals(c).None? && c != '"'
  {
  }

  // ------------------------------------------------------- peeking_take_while

  /** Where a peeking_take_while started at i stops: the first position at
      or after i whose character fails p, or the end. */
  function TakeWhileEnd(s: string, i: nat, p: char -> bool): (j: nat)
    requires i <= |s|
    ensures i <= j <= |s|
    ensures forall k :: i <= k < j ==> p(s[k])
    ensures j == |s| || !p(s[j])
    decreases |s| - i
  {
    if i == |s| || !p(s[i]) then i else TakeWhileEnd(s, i + 1, p)
  }

  /** peeking_take_while: advances past the characters satisfying p and
      leaves the first one that does not unread. */
  method TakeWhile(s: string, i: nat, p: char -> bool) returns (j: nat)
    requires i <= |s|
    ensures j == TakeWhileEnd(s, i, p)
  {
    j := i;
    while j < |s| && p(s[j])
      invariant i <= j <= |s|
      invariant TakeWhileEnd(s, j, p) == TakeWhileEnd(s, i, p)
      decreases |s| - j
    {
      j := j + 1;
    }
  }

  // ------------------------------------------------------------- one step

  /** A token, the position after it and the line counter after it. */
  datatype Step = Step(token: Token, next: nat, line: nat)

  /** The tokens the match of next_token gives one character. */
  function SingleChar(c: char): Option<TokenType> {
    match c
    case '(' => Some(LParen)
    case ')' => Some(RParen)
    case '{' => Some(LBrace)
    case '}' => Some(RBrace)
    case ',' => Some(Comma)
    case '*' => Some(Star)
    case '/' => Some(Slash)
    case '.' => Some(Dot)
    case _ => None
  }

  /** The characters that form a two-character token with a following '=':
      the token alone and the token with '='. */
  function WithEquals(c: char): Option<(TokenType, TokenType)> {
    match c
    case '+' => Some((Plus, PlusAssign))
    case '-' => Some((Minus, MinusAssign))
    case '!' => Some((Bang, BangEqual))
    case '<' => Some((Less, LessEqual))
    case '>' => Some((Greater, GreaterEqual))
    case '=' => Some((Assign, Equal))
    case _ => None
  }

  const Keywords: set<string> := {"if", "else", "elif", "true", "false", "for", "while", "fn", "struct"}

  /** The keywords of scan_identifier. */
  function Keyword(lexeme: string): (r: Option<TokenType>)
    ensures r.Some? <==> lexeme in Keywords
  {
    match lexeme
    case "if" => Some(If)
    case "else" => Some(Else)
    case "elif" => Some(Elif)
    case "true" => Some(True)
    case "false" => Some(False)
    case "for" => Some(For)
    case "while" => Some(While)
    case "fn" => Some(Function)
    case "struct" => Some(Struct)
    case _ => None
  }

  /** scan_string, entered after the opening quote at position i - 1. */
  function StringStep(s: string, i: nat, line: nat): Step
    requires i <= |s|
  {
    var e := TakeWhileEnd(s, i, NotQuote);
    var text := s[i..e];
    if e < |s| then Step(Token(Str, text, StrLiteral(text), line), e + 1, line)
    else Step(Token(Unknown, text, NoLiteral, line), e, line)
  }

  /** scan_number, entered at the first digit, position i. */
  function NumberStep(s: string, i: nat, line: nat, parseNum: string -> Option<real>): Step
    requires i < |s|
  {
    var e := TakeWhileEnd(s, i + 1, IsNumberChar);
    var lexeme := s[i..e];
    match parseNum(lexeme)
    case Some(n) => Step(Token(Number, lexeme, NumLiteral(n), line), e, line)
    case None => Step(Token(Unknown, lexeme, NoLiteral, line), e, line)
  }

  /** scan_identifier, entered at the first letter, position i. */
  function IdentifierStep(s: string, i: nat, line: nat): Step
    requires i < |s|
  {
    var e := TakeWhileEnd(s, i + 1, IsIdentChar);
    var lexeme := s[i..e];
    match Keyword(lexeme)
    case Some(kw) => Step(FromTy(kw), e, line)
    case None => Step(Token(Identifier, lexeme, NoLiteral, line), e, line)
  }

  /** The next_token closure at position i: None only at the end of input;
      otherwise it consumes at least one character. */
  function StepAt(s: string, i: nat, line: nat, parseNum: string -> Option<real>): (r: Option<Step>)
    requires i <= |s|
    ensures r.None? <==> i == |s|
    ensures r.Some? ==> i < r.value.next <= |s|
    ensures r.Some? ==> r.value.line == line + (if r.value.token.ty == NewLine then 1 else 0)
  {
    if i == |s| then None
    else
      var c := s[i];
      var equalsNext := i + 1 < |s| && s[i + 1] == '=';
      if IsNewLine(c) then Some(Step(FromTy(NewLine), i + 1, line + 1))
      else if SingleChar(c).Some? then Some(Step(FromTy(SingleChar(c).value), i + 1, line))
      else if c == '#' then Some(Step(FromTy(Hash), TakeWhileEnd(s, i + 1, NotLineFeed), line))
      else if WithEquals(c).Some? then
        if equalsNext then Some(Step(FromTy(WithEquals(c).value.1), i + 2, line))
        else Some(Step(FromTy(WithEquals(c).value.0), i + 1, line))
      else if c == '"' then Some(StringStep(s, i + 1, line))
      else if IsDigit(c) then Some(NumberStep(s, i, line, parseNum))
      else if IsAlpha(c) then Some(IdentifierStep(s, i, line))
      else if IsSpace(c) then Some(Step(FromTy(WhiteSpace), i + 1, line))
      else Some(Step(Token(Unknown, [c], NoLiteral, line), i + 1, line))
  }

  /** The tokens the scanner keeps: all but WhiteSpace and Hash. */
  predicate Kept(t: Token) {
    t.ty != WhiteSpace && t.ty != Hash
  }

  /** scan_tokens from position i with the line counter at line. */
  function Scan(s: string, i: nat, line: nat, parseNum: string -> Option<real>): seq<Token>
    requires i <= |s|
    decreases |s| - i
  {
    match StepAt(s, i, line, parseNum)
    case None => []
    case Some(st) => (if Kept(st.token) then [st.token] else []) + Scan(s, st.next, st.line, parseNum)
  }

  /** The line counter once the whole input is scanned. */
  function FinalLine(s: string, i: nat, line: nat, parseNum: string -> Option<real>): nat
    requires i <= |s|
    decreases |s| - i
  {
    match StepAt(s, i, line, parseNum)
    case None => line
    case Some(st) => FinalLine(s, st.next, st.line, parseNum)
  }

  /** One step of Scan and FinalLine. */
  lemma ScanUnfold(s: string, i: nat, line: nat, parseNum: string -> Option<real>, st: Step)
    requires i <= |s| && StepAt(s, i, line, parseNum) == Some(st)
    ensures Scan(s, i, line, parseNum) == (if Kept(st.token) then [st.token] else []) + Scan(s, st.next, st.line, parseNum)
    ensures FinalLine(s, i, line, parseNum) == FinalLine(s, st.next, st.line, parseNum)
  {
  }

  /** One step of Scan behind the tokens already collected. */
  lemma ScanAdvance(s: string, i: nat, line: nat, parseNum: string -> Option<real>, st: Step, acc: seq<Token>)
    requires i <= |s| && StepAt(s, i, line, parseNum) == Some(st)
    ensures acc + Scan(s, i, line, parseNum) == (acc + (if Kept(st.token) then [st.token] else [])) + Scan(s, st.next, st.line, parseNum)
    ensures FinalLine(s, i, line, parseNum) == FinalLine(s, st.next, st.line, parseNum)
  {
    ScanUnfold(s, i, line, parseNum, st);
    Concat(acc, if Kept(st.token) then [st.token] else [], Scan(s, st.next, st.line, parseNum));
  }

  lemma Concat(a: seq<Token>, b: seq<Token>, c: seq<Token>)
    ensures (a + b) + c == a + (b + c)
  {
  }

  // --------------------------------------------------------------- methods

  method ScanString(s: string, i: nat, line: nat) returns (st: Step)
    requires i <= |s|
    ensures st == StringStep(s, i, line)
  {
    var e := TakeWhile(s, i, NotQuote);
    var text := s[i..e];
    if e < |s| {
      st := Step(Token(Str, text, StrLiteral(text), line), e + 1, line);
    } else {
      st := Step(Token(Unknown, text, NoLiteral, line), e, line);
    }
  }

  method ScanNumber(s: string, i: nat, line: nat, parseNum: string -> Option<real>) returns (st: Step)
    requires i < |s|
    ensures st == NumberStep(s, i, line, parseNum)
  {
    var e := TakeWhile(s, i + 1, IsNumberChar);
    var lexeme := s[i..e];
    match parseNum(lexeme) {
      case Some(n) => st := Step(Token(Number, lexeme, NumLiteral(n), line), e, line);
      case None => st := Step(Token(Unknown, lexeme, NoLiteral, line), e, line);
    }
  }

  method ScanIdentifier(s: string, i: nat, line: nat) returns (st: Step)
    requires i < |s|
    ensures st == IdentifierStep(s, i, line)
  {
    var e := TakeWhile(s, i + 1, IsIdentChar);
    var lexeme := s[i..e];
    match Keyword(lexeme) {
      case Some(kw) => st := Step(FromTy(kw), e, line);
      case None => st := Step(Token(Identifier, lexeme, NoLiteral, line), e, line);
    }
  }

  /** skip_comment: the position of the next line feed, or the end. */
  method SkipComment(s: string, i: nat) returns (j: nat)
    requires i <= |s|
    ensures j == TakeWhileEnd(s, i, NotLineFeed)
  {
    j := TakeWhile(s, i, NotLineFeed);
  }

  /** The next_token closure on a non-exhausted input. */
  method NextToken(s: string, i: nat, line: nat, parseNum: string -> Option<real>) returns (st: Step)
    requires i < |s|
    ensures Some(st) == StepAt(s, i, line, parseNum)
  {
    var c := s[i];
    var equalsNext := i + 1 < |s| && s[i + 1] == '=';
    if IsNewLine(c) {
      st := Step(FromTy(NewLine), i + 1, line + 1);
    } else if SingleChar(c).Some? {
      st := Step(FromTy(SingleChar(c).value), i + 1, line);
    } else if c == '#' {
      var e := SkipComment(s, i + 1);
      st := Step(FromTy(Hash), e, line);
    } else if WithEquals(c).Some? {
      if equalsNext {
        st := Step(FromTy(WithEquals(c).value.1), i + 2, line);
      } else {
        st := Step(FromTy(WithEquals(c).value.0), i + 1, line);
      }
    } else if c == '"' {
      st := ScanString(s, i + 1, line);
    } else if IsDigit(c) {
      st := ScanNumber(s, i, line, parseNum);
    } else if IsAlpha(c) {
      st := ScanIdentifier(s, i, line);
    } else if IsSpace(c) {
      st := Step(FromTy(WhiteSpace), i + 1, line);
    } else {
      st := Step(Token(Unknown, [c], NoLiteral, line), i + 1, line);
    }
  }

  /** scan_tokens: runs next_token to the end of input, dropping WhiteSpace
      and Hash tokens. */
  method ScanTokens(s: string, parseNum: string -> Option<real>) returns (tokens: seq<Token>, line: nat)
    ensures tokens == Scan(s, 0, 1, parseNum)
    ensures line == FinalLine(s, 0, 1, parseNum)
  {
    tokens := [];
    line := 1;
    var i := 0;
    while i < |s|
      invariant i <= |s|
      invariant tokens + Scan(s, i, line, parseNum) == Scan(s, 0, 1, parseNum)
      invariant FinalLine(s, i, line, parseNum) == FinalLine(s, 0, 1, parseNum)
      decreases |s| - i
    {
      var st := NextToken(s, i, line, parseNum);
      ScanAdvance(s, i, line, parseNum, st, tokens);
      tokens := tokens + if Kept(st.token) then [st.token] else [];
      i, line := st.next, st.line;
    }
  }

  // ------------------------------------------------------------- properties

  /** The output never holds a WhiteSpace or Hash token. */
  lemma {:induction false} ScanDropsLayout(s: string, i: nat, line: nat, parseNum: string -> Option<real>)
    requires i <= |s|
    ensures forall t :: t in Scan(s, i, line, parseNum) ==> t.ty != WhiteSpace && t.ty != Hash
    decreases |s| - i
  {
    if i < |s| {
      var st := StepAt(s, i, line, parseNum).value;
      ScanUnfold(s, i, line, parseNum, st);
      ScanDropsLayout(s, st.next, st.line, parseNum);
    }
  }

  /** The number of tokens of a kind. */
  function CountTy(ts: seq<Token>, ty: TokenType): nat {
    if ts == [] then 0 else (if ts[0].ty == ty then 1 else 0) + CountTy(ts[1..], ty)
  }

  lemma {:induction false} CountTyAppend(a: seq<Token>, b: seq<Token>, ty: TokenType)
    ensures CountTy(a + b, ty) == CountTy(a, ty) + CountTy(b, ty)
  {
    if a == [] {
      assert a + b == b;
    } else {
      assert (a + b)[0] == a[0];
      assert (a + b)[1..] == a[1..] + b;
      CountTyAppend(a[1..], b, ty);
    }
  }

  /** A line feed or carriage return yields one NewLine and advances the line. */
  lemma NewLineStep(s: string, i: nat, line: nat, parseNum: string -> Option<real>)
    requires i < |s| && IsNewLine(s[i])
    ensures StepAt(s, i, line, parseNum) == Some(Step(FromTy(NewLine), i + 1, line + 1))
  {
  }

  /** The line counter ends one above the number of NewLine tokens: only
      NewLine steps advance it. */
  lemma {:induction false} LineCountsNewLines(s: string, i: nat, line: nat, parseNum: string -> Option<real>)
    requires i <= |s|
    ensures FinalLine(s, i, line, parseNum) == line + CountTy(Scan(s, i, line, parseNum), NewLine)
    decreases |s| - i
  {
    if i < |s| {
      var st := StepAt(s, i, line, parseNum).value;
      ScanUnfold(s, i, line, parseNum, st);
      LineCountsNewLines(s, st.next, st.line, parseNum);
      var emitted := if Kept(st.token) then [st.token] else [];
      CountTyAppend(emitted, Scan(s, st.next, st.line, parseNum), NewLine);
      assert st.line == line + CountTy(emitted, NewLine);
    }
  }

  /** The number of line feeds and carriage returns from position i on. */
  function NewLinesFrom(s: string, i: nat): nat
    requires i <= |s|
    decreases |s| - i
  {
    if i == |s| then 0 else (if IsNewLine(s[i]) then 1 else 0) + NewLinesFrom(s, i + 1)
  }

  lemma {:induction false} NoNewLinesBetween(s: string, i: nat, j: nat)
    requires i <= j <= |s|
    requires forall k :: i <= k < j ==> !IsNewLine(s[k])
    ensures NewLinesFrom(s, i) == NewLinesFrom(s, j)
    decreases j - i
  {
    if i < j {
      NoNewLinesBetween(s, i + 1, j);
    }
  }

  /** Outside strings and comments, the characters of one step hold a line
      break exactly when the step is a NewLine. */
  lemma StepNewLines(s: string, i: nat, line: nat, parseNum: string -> Option<real>)
    requires i < |s| && s[i] != '"' && s[i] != '#'
    ensures var st := StepAt(s, i, line, parseNum).value;
            NewLinesFrom(s, i) == (if st.token.ty == NewLine then 1 else 0) + NewLinesFrom(s, st.next)
  {
    var st := StepAt(s, i, line, parseNum).value;
    if IsNewLine(s[i]) {
      assert st.token.ty == NewLine && st.next == i + 1;
    } else {
      NoBreakInside(s, i, line, parseNum);
      NoNewLinesBetween(s, i, st.next);
    }
  }

  /** A step that starts at neither a quote, a '#' nor a line break spans no line break. */
  lemma NoBreakInside(s: string, i: nat, line: nat, parseNum: string -> Option<real>)
    requires i < |s| && s[i] != '"' && s[i] != '#' && !IsNewLine(s[i])
    ensures var st := StepAt(s, i, line, parseNum).value;
            st.token.ty != NewLine && forall k :: i <= k < st.next ==> !IsNewLine(s[k])
  {
    var st := StepAt(s, i, line, parseNum).value;
    if IsDigit(s[i]) {
      PlainStart(s[i]);
      assert st == NumberStep(s, i, line, parseNum);
    } else if IsAlpha(s[i]) {
      PlainStart(s[i]);
      assert st == IdentifierStep(s, i, line);
    } else {
      assert st.next <= i + 2;
      assert st.next == i + 2 ==> s[i + 1] == '=';
    }
  }

  /** Without strings or comments, every line feed and every carriage return
      is one NewLine token, so "\r\n" counts as two lines. */
  lemma {:induction false} NewLinesMatchText(s: string, i: nat, line: nat, parseNum: string -> Option<real>)
    requires i <= |s|
    requires forall k :: i <= k < |s| ==> s[k] != '"' && s[k] != '#'
    ensures CountTy(Scan(s, i, line, parseNum), NewLine) == NewLinesFrom(s, i)
    decreases |s| - i
  {
    if i < |s| {
      var st := StepAt(s, i, line, parseNum).value;
      ScanUnfold(s, i, line, parseNum, st);
      StepNewLines(s, i, line, parseNum);
      NewLinesMatchText(s, st.next, st.line, parseNum);
      var emitted := if Kept(st.token) then [st.token] else [];
      CountTyAppend(emitted, Scan(s, st.next, st.line, parseNum), NewLine);
    }
  }

  /** A comment runs to the next line feed, which is not part of it and
      still yields NewLine; nothing in the comment reaches the output. */
  lemma CommentSkipped(s: string, i: nat, line: nat, parseNum: string -> Option<real>)
    requires i < |s| && s[i] == '#'
    ensures var e := TakeWhileEnd(s, i + 1, NotLineFeed);
            StepAt(s, i, line, parseNum) == Some(Step(FromTy(Hash), e, line)) &&
            (forall k :: i < k < e ==> s[k] != '\n') &&
            Scan(s, i, line, parseNum) == Scan(s, e, line, parseNum) &&
            (e < |s| ==> s[e] == '\n' && StepAt(s, e, line, parseNum) == Some(Step(FromTy(NewLine), e + 1, line + 1)))
  {
    var e := TakeWhileEnd(s, i + 1, NotLineFeed);
    assert !IsNewLine('#') && SingleChar('#').None?;
    assert StepAt(s, i, line, parseNum) == Some(Step(FromTy(Hash), e, line));
    ScanUnfold(s, i, line, parseNum, Step(FromTy(Hash), e, line));
    if e < |s| {
      LineFeedStep(s, e, line, parseNum);
    }
  }

  lemma LineFeedStep(s: string, i: nat, line: nat, parseNum: string -> Option<real>)
    requires i < |s| && !NotLineFeed(s[i])
    ensures s[i] == '\n' && StepAt(s, i, line, parseNum) == Some(Step(FromTy(NewLine), i + 1, line + 1))
  {
  }

  /** +=, -=, !=, <=, >= and == are single tokens. */
  lemma TwoCharOperators(s: string, i: nat, line: nat, parseNum: string -> Option<real>)
    requires i + 1 < |s| && s[i + 1] == '='
    ensures s[i] == '+' ==> StepAt(s, i, line, parseNum) == Some(Step(FromTy(PlusAssign), i + 2, line))
    ensures s[i] == '-' ==> StepAt(s, i, line, parseNum) == Some(Step(FromTy(MinusAssign), i + 2, line))
    ensures s[i] == '!' ==> StepAt(s, i, line, parseNum) == Some(Step(FromTy(BangEqual), i + 2, line))
    ensures s[i] == '<' ==> StepAt(s, i, line, parseNum) == Some(Step(FromTy(LessEqual), i + 2, line))
    ensures s[i] == '>' ==> StepAt(s, i, line, parseNum) == Some(Step(FromTy(GreaterEqual), i + 2, line))
    ensures s[i] == '=' ==> StepAt(s, i, line, parseNum) == Some(Step(FromTy(Equal), i + 2, line))
  {
  }

  /** Not followed by '=', each of + - ! < > = is a token of one character. */
  lemma OneCharOperators(s: string, i: nat, line: nat, parseNum: string -> Option<real>)
    requires i < |s| && (i + 1 == |s| || s[i + 1] != '=')
    ensures s[i] == '+' ==> StepAt(s, i, line, parseNum) == Some(Step(FromTy(Plus), i + 1, line))
    ensures s[i] == '-' ==> StepAt(s, i, line, parseNum) == Some(Step(FromTy(Minus), i + 1, line))
    ensures s[i] == '!' ==> StepAt(s, i, line, parseNum) == Some(Step(FromTy(Bang), i + 1, line))
    ensures s[i] == '<' ==> StepAt(s, i, line, parseNum) == Some(Step(FromTy(Less), i + 1, line))
    ensures s[i] == '>' ==> StepAt(s, i, line, parseNum) == Some(Step(FromTy(Greater), i + 1, line))
    ensures s[i] == '=' ==> StepAt(s, i, line, parseNum) == Some(Step(FromTy(Assign), i + 1, line))
  {
  }

  /** An identifier is a letter and the longest run of letters, digits and
      '_' after it; the nine keywords become keyword tokens, anything else an
      Identifier carrying its lexeme and line. */
  lemma IdentifierToken(s: string, i: nat, line: nat, parseNum: string -> Option<real>)
    requires i < |s| && IsAlpha(s[i])
    ensures var st := StepAt(s, i, line, parseNum).value;
            var lexeme := s[i..st.next];
            (forall k :: i <= k < st.next ==> IsIdentChar(s[k])) &&
            (st.next == |s| || !IsIdentChar(s[st.next])) && st.line == line &&
            (lexeme in Keywords ==> st.token == FromTy(Keyword(lexeme).value)) &&
            (lexeme !in Keywords ==> st.token == Token(Identifier, lexeme, NoLiteral, line))
  {
    PlainStart(s[i]);
    assert StepAt(s, i, line, parseNum) == Some(IdentifierStep(s, i, line));
  }

  /** A number lexeme is a digit and the longest run of digits and '.' after
      it; it is a Number when it parses and Unknown otherwise. */
  lemma NumberToken(s: string, i: nat, line: nat, parseNum: string -> Option<real>)
    requires i < |s| && IsDigit(s[i])
    ensures var st := StepAt(s, i, line, parseNum).value;
            var lexeme := s[i..st.next];
            (forall k :: i <= k < st.next ==> IsNumberChar(s[k])) &&
            (st.next == |s| || !IsNumberChar(s[st.next])) && st.line == line &&
            (parseNum(lexeme).Some? ==> st.token == Token(Number, lexeme, NumLiteral(parseNum(lexeme).value), line)) &&
            (parseNum(lexeme).None? ==> st.token == Token(Unknown, lexeme, NoLiteral, line))
  {
    PlainStart(s[i]);
    assert StepAt(s, i, line, parseNum) == Some(NumberStep(s, i, line, parseNum));
  }

  lemma QuoteStartsString(s: string, i: nat, line: nat, parseNum: string -> Option<real>)
    requires i < |s| && s[i] == '"'
    ensures StepAt(s, i, line, parseNum) == Some(StringStep(s, i + 1, line))
  {
  }

  /** A string runs to the next quote: the token carries the text between
      the quotes and the closing quote is consumed. */
  lemma StringToken(s: string, i: nat, e: nat, line: nat, parseNum: string -> Option<real>)
    requires i < e < |s| && s[i] == '"' && s[e] == '"'
    requires forall k :: i < k < e ==> s[k] != '"'
    ensures StepAt(s, i, line, parseNum) == Some(Step(Token(Str, s[i + 1..e], StrLiteral(s[i + 1..e]), line), e + 1, line))
  {
    QuoteStartsString(s, i, line, parseNum);
    assert TakeWhileEnd(s, i + 1, NotQuote) == e;
  }

  /** Without a closing quote the rest of the input is an Unknown token. */
  lemma UnclosedString(s: string, i: nat, line: nat, parseNum: string -> Option<real>)
    requires i < |s| && s[i] == '"'
    requires forall k :: i < k < |s| ==> s[k] != '"'
    ensures StepAt(s, i, line, parseNum) == Some(Step(Token(Unknown, s[i + 1..], NoLiteral, line), |s|, line))
  {
    QuoteStartsString(s, i, line, parseNum);
    assert TakeWhileEnd(s, i + 1, NotQuote) == |s|;
    assert s[i + 1..|s|] == s[i + 1..];
  }

  /** Characters that start no token are Unknown tokens of their own, tagged
      with the line, and scanning goes on after them. */
  lemma UnknownCharacter(s: string, i: nat, line: nat, parseNum: string -> Option<real>)
    requires i < |s|
    requires !IsSpace(s[i]) && !IsDigit(s[i]) && !IsAlpha(s[i])
    requires s[i] !in "(){},*/.#+-!<>=\""
    ensures Scan(s, i, line, parseNum) == [Token(Unknown, [s[i]], NoLiteral, line)] + Scan(s, i + 1, line, parseNum)
  {
    ScanUnfold(s, i, line, parseNum, Step(Token(Unknown, [s[i]], NoLiteral, line), i + 1, line));
  }
}
