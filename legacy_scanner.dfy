/** The older scanner of src/main.rs and the unknown-token check of its run.

    The iterator is an index into the source text, as in module Scanner.
    This scanner knows no identifiers, numbers or comments, turns line
    breaks into WhiteSpace tokens, and stops at an unrecognised last
    character. Its scan_string is modelled as written: take_while also
    consumes the closing quote, and the next call meant to consume that
    quote consumes the character after it. */
module LegacyScanner {
  import opened Tokens
  import opened Results
  import Scanner

  /** The characters that are one token whatever follows them. */
  function SingleChar(c: char): Option<TokenType> {
    match c
    case '(' => Some(LParen)
    case ')' => Some(RParen)
    case '{' => Some(LBrace)
    case '}' => Some(RBrace)
    case ',' => Some(Comma)
    case '+' => Some(Plus)
    case '-' => Some(Minus)
    case '*' => Some(Star)
    case '#' => Some(Hash)
    case _ => None
  }

  /** The characters that form a two-character token with a following '='. */
  function WithEquals(c: char): Option<(TokenType, TokenType)> {
    match c
    case '!' => Some((Bang, BangEqual))
    case '<' => Some((Less, LessEqual))
    case '>' => Some((Greater, GreaterEqual))
    case '=' => Some((Assign, Equal))
    case _ => None
  }

  /** scan_string as written, entered after the opening quote at i - 1. */
  function StringStep(s: string, i: nat, line: nat): Scanner.Step
    requires i <= |s|
  {
    var e := Scanner.TakeWhileEnd(s, i, Scanner.NotQuote);
    var text := s[i..e];
    var after := if e < |s| then e + 1 else e;
    if after < |s| then Scanner.Step(Token(Str, text, StrLiteral(text), line), after + 1, line)
    else Scanner.Step(Token(Unknown, text, NoLiteral, line), after, line)
  }

  /** Whether a character is one this scanner has a case for. */
  predicate Recognised(c: char) {
    c == ' ' || c == '\t' || SingleChar(c).Some? || Scanner.IsNewLine(c) || WithEquals(c).Some? || c == '"'
  }

  /** The next_token closure of src/main.rs at position i. It gives None at
      the end of input and at an unrecognised last character. */
  function StepAt(s: string, i: nat, line: nat): (r: Option<Scanner.Step>)
    requires i <= |s|
    ensures r.None? <==> i == |s| || (i == |s| - 1 && !Recognised(s[i]))
    ensures r.Some? ==> i < r.value.next <= |s|
    ensures r.Some? ==> r.value.token.ty != NewLine
  {
    if i == |s| then None
    else
      var c := s[i];
      var equalsNext := i + 1 < |s| && s[i + 1] == '=';
      if c == ' ' || c == '\t' then Some(Scanner.Step(FromTy(WhiteSpace), i + 1, line))
      else if SingleChar(c).Some? then Some(Scanner.Step(FromTy(SingleChar(c).value), i + 1, line))
      else if Scanner.IsNewLine(c) then Some(Scanner.Step(FromTy(WhiteSpace), i + 1, line + 1))
      else if WithEquals(c).Some? then
        if equalsNext then Some(Scanner.Step(FromTy(WithEquals(c).value.1), i + 2, line))
        else Some(Scanner.Step(FromTy(WithEquals(c).value.0), i + 1, line))
      else if c == '"' then Some(StringStep(s, i + 1, line))
      else if i + 1 < |s| then Some(Scanner.Step(Token(Unknown, [], NoLiteral, line), i + 1, line))
      else None
  }

  /** scan_tokens of src/main.rs from position i: only WhiteSpace is dropped. */
  function Scan(s: string, i: nat, line: nat): seq<Token>
    requires i <= |s|
    decreases |s| - i
  {
    match StepAt(s, i, line)
    case None => []
    case Some(st) => (if st.token.ty != WhiteSpace then [st.token] else []) + Scan(s, st.next, st.line)
  }

  lemma ScanUnfold(s: string, i: nat, line: nat, st: Scanner.Step)
    requires i <= |s| && StepAt(s, i, line) == Some(st)
    ensures Scan(s, i, line) == (if st.token.ty != WhiteSpace then [st.token] else []) + Scan(s, st.next, st.line)
  {
  }

  /** One step of Scan behind the tokens already collected. */
  lemma ScanAdvance(s: string, i: nat, line: nat, st: Scanner.Step, acc: seq<Token>)
    requires i <= |s| && StepAt(s, i, line) == Some(st)
    ensures acc + Scan(s, i, line) == (acc + (if st.token.ty != WhiteSpace then [st.token] else [])) + Scan(s, st.next, st.line)
  {
    ScanUnfold(s, i, line, st);
    Scanner.Concat(acc, if st.token.ty != WhiteSpace then [st.token] else [], Scan(s, st.next, st.line));
  }

  lemma ScanStops(s: string, i: nat, line: nat)
    requires i <= |s| && StepAt(s, i, line).None?
    ensures Scan(s, i, line) == []
  {
  }

  /** scan_string as written, entered after the opening quote at i - 1. */
  method ScanString(s: string, i: nat, line: nat) returns (st: Scanner.Step)
    requires i <= |s|
    ensures st == StringStep(s, i, line)
  {
    var e := Scanner.TakeWhile(s, i, Scanner.NotQuote);
    var text := s[i..e];
    var after := if e < |s| then e + 1 else e;
    if after < |s| {
      st := Scanner.Step(Token(Str, text, StrLiteral(text), line), after + 1, line);
    } else {
      st := Scanner.Step(Token(Unknown, text, NoLiteral, line), after, line);
    }
  }

  /** The next_token closure. */
  method NextToken(s: string, i: nat, line: nat) returns (r: Option<Scanner.Step>)
    requires i <= |s|
    ensures r == StepAt(s, i, line)
  {
    if i == |s| {
      return None;
    }
    var c := s[i];
    var equalsNext := i + 1 < |s| && s[i + 1] == '=';
    if c == ' ' || c == '\t' {
      r := Some(Scanner.Step(FromTy(WhiteSpace), i + 1, line));
    } else if SingleChar(c).Some? {
      r := Some(Scanner.Step(FromTy(SingleChar(c).value), i + 1, line));
    } else if Scanner.IsNewLine(c) {
      r := Some(Scanner.Step(FromTy(WhiteSpace), i + 1, line + 1));
    } else if WithEquals(c).Some? {
      if equalsNext {
        r := Some(Scanner.Step(FromTy(WithEquals(c).value.1), i + 2, line));
      } else {
        r := Some(Scanner.Step(FromTy(WithEquals(c).value.0), i + 1, line));
      }
    } else if c == '"' {
      var st := ScanString(s, i + 1, line);
      r := Some(st);
    } else if i + 1 < |s| {
      r := Some(Scanner.Step(Token(Unknown, [], NoLiteral, line), i + 1, line));
    } else {
      r := None;
    }
  }

  /** scan_tokens: runs next_token until it gives None, dropping WhiteSpace. */
  method ScanTokens(s: string) returns (tokens: seq<Token>)
    ensures tokens == Scan(s, 0, 1)
  {
    tokens := [];
    var i, line := 0, 1;
    while true
      invariant i <= |s|
      invariant tokens + Scan(s, i, line) == Scan(s, 0, 1)
      decreases |s| - i
    {
      var r := NextToken(s, i, line);
      if r.None? {
        ScanStops(s, i, line);
        assert tokens + [] == tokens;
        return;
      }
      var st := r.value;
      ScanAdvance(s, i, line, st, tokens);
      tokens := tokens + if st.token.ty != WhiteSpace then [st.token] else [];
      i, line := st.next, st.line;
    }
  }

  // ------------------------------------------------------------------- run

  /** The error of run: the lexeme and line of an Unknown token. */
  datatype RunError = Invalid(lexeme: string, line: nat)

  /** The position of the first Unknown token, if any. */
  function FirstUnknown(ts: seq<Token>): (r: Option<nat>)
    ensures r.None? <==> forall k :: 0 <= k < |ts| ==> ts[k].ty != Unknown
    ensures r.Some? ==> r.value < |ts| && ts[r.value].ty == Unknown &&
                        forall k :: 0 <= k < r.value ==> ts[k].ty != Unknown
  {
    if ts == [] then None
    else if ts[0].ty == Unknown then Some(0)
    else
      match FirstUnknown(ts[1..])
      case None => None
      case Some(k) => Some(k + 1)
  }

  /** run: scanning succeeds unless some token is Unknown; then the error
      names the first such token. On success the result is the kinds run
      prints, in order. */
  function Run(code: string): (r: Result<seq<TokenType>, RunError>)
    ensures r.Err? <==> exists k :: 0 <= k < |Scan(code, 0, 1)| && Scan(code, 0, 1)[k].ty == Unknown
    ensures r.Err? ==> exists k :: 0 <= k < |Scan(code, 0, 1)| && Scan(code, 0, 1)[k].ty == Unknown &&
                         (forall j :: 0 <= j < k ==> Scan(code, 0, 1)[j].ty != Unknown) &&
                         r.error == Invalid(Scan(code, 0, 1)[k].lexeme, Scan(code, 0, 1)[k].line)
    ensures r.Ok? ==> |r.value| == |Scan(code, 0, 1)| &&
                      forall k :: 0 <= k < |r.value| ==> r.value[k] == Scan(code, 0, 1)[k].ty
  {
    var tokens := Scan(code, 0, 1);
    match FirstUnknown(tokens)
    case Some(k) => Err(Invalid(tokens[k].lexeme, tokens[k].line))
    case None => Ok(seq(|tokens|, k requires 0 <= k < |tokens| => tokens[k].ty))
  }

  // ------------------------------------------------------------- properties

  /** Line breaks advance the line but become WhiteSpace, which is dropped. */
  lemma LineBreakIsWhiteSpace(s: string, i: nat, line: nat)
    requires i < |s| && Scanner.IsNewLine(s[i])
    ensures StepAt(s, i, line) == Some(Scanner.Step(FromTy(WhiteSpace), i + 1, line + 1))
    ensures Scan(s, i, line) == Scan(s, i + 1, line + 1)
  {
    ScanUnfold(s, i, line, Scanner.Step(FromTy(WhiteSpace), i + 1, line + 1));
  }

  /** The output holds no WhiteSpace and no NewLine token. */
  lemma {:induction false} NoLayoutTokens(s: string, i: nat, line: nat)
    requires i <= |s|
    ensures forall t :: t in Scan(s, i, line) ==> t.ty != WhiteSpace && t.ty != NewLine
    decreases |s| - i
  {
    if StepAt(s, i, line).Some? {
      var st := StepAt(s, i, line).value;
      ScanUnfold(s, i, line, st);
      NoLayoutTokens(s, st.next, st.line);
      var emitted := if st.token.ty != WhiteSpace then [st.token] else [];
      assert forall t :: t in emitted ==> t.ty != WhiteSpace && t.ty != NewLine;
    }
  }

  /** '#' is a Hash token that stays in the output; what follows it is
      scanned as usual. */
  lemma HashKept(s: string, i: nat, line: nat)
    requires i < |s| && s[i] == '#'
    ensures Scan(s, i, line) == [FromTy(Hash)] + Scan(s, i + 1, line)
  {
    ScanUnfold(s, i, line, Scanner.Step(FromTy(Hash), i + 1, line));
  }

  /** !=, <=, >= and == are single tokens. */
  lemma TwoCharOperators(s: string, i: nat, line: nat)
    requires i + 1 < |s| && s[i + 1] == '='
    ensures s[i] == '!' ==> StepAt(s, i, line) == Some(Scanner.Step(FromTy(BangEqual), i + 2, line))
    ensures s[i] == '<' ==> StepAt(s, i, line) == Some(Scanner.Step(FromTy(LessEqual), i + 2, line))
    ensures s[i] == '>' ==> StepAt(s, i, line) == Some(Scanner.Step(FromTy(GreaterEqual), i + 2, line))
    ensures s[i] == '=' ==> StepAt(s, i, line) == Some(Scanner.Step(FromTy(Equal), i + 2, line))
  {
  }

  /** +, - and * are one-character tokens, even before '='. */
  lemma ArithmeticOneChar(s: string, i: nat, line: nat)
    requires i < |s|
    ensures s[i] == '+' ==> StepAt(s, i, line) == Some(Scanner.Step(FromTy(Plus), i + 1, line))
    ensures s[i] == '-' ==> StepAt(s, i, line) == Some(Scanner.Step(FromTy(Minus), i + 1, line))
    ensures s[i] == '*' ==> StepAt(s, i, line) == Some(Scanner.Step(FromTy(Star), i + 1, line))
  {
  }

  /** An unrecognised character with another after it is an Unknown token
      with an empty lexeme; as the last character it ends scanning and is
      dropped. */
  lemma Unrecognised(s: string, i: nat, line: nat)
    requires i < |s| && !Recognised(s[i])
    ensures i + 1 < |s| ==> Scan(s, i, line) == [Token(Unknown, [], NoLiteral, line)] + Scan(s, i + 1, line)
    ensures i + 1 == |s| ==> Scan(s, i, line) == []
  {
    if i + 1 < |s| {
      ScanUnfold(s, i, line, Scanner.Step(Token(Unknown, [], NoLiteral, line), i + 1, line));
    }
  }

  /** Against scan_string of src/scanner.rs: a string closed before the last
      character consumes one character more, the one after the quote. */
  lemma StringSwallowsNext(s: string, i: nat, line: nat)
    requires i <= |s|
    requires Scanner.TakeWhileEnd(s, i, Scanner.NotQuote) < |s| - 1
    ensures StringStep(s, i, line).token == Scanner.StringStep(s, i, line).token
    ensures StringStep(s, i, line).next == Scanner.StringStep(s, i, line).next + 1
  {
  }

  /** ... and a string closed by the last character is Unknown. */
  lemma StringAtEndUnknown(s: string, i: nat, line: nat)
    requires i <= |s|
    requires Scanner.TakeWhileEnd(s, i, Scanner.NotQuote) == |s| - 1
    ensures StringStep(s, i, line).token.ty == Unknown
    ensures Scanner.StringStep(s, i, line).token.ty == Str
  {
  }

  /** The input "ab" with its quotes, as a whole program: run rejects it. */
  lemma ClosedStringAtEndRejected()
    ensures Scan("\"ab\"", 0, 1) == [Token(Unknown, "ab", NoLiteral, 1)]
    ensures Run("\"ab\"") == Err(Invalid("ab", 1))
  {
    var s := "\"ab\"";
    assert Scanner.TakeWhileEnd(s, 1, Scanner.NotQuote) == 3;
    assert s[1..3] == "ab";
    assert StepAt(s, 0, 1) == Some(StringStep(s, 1, 1));
    ScanUnfold(s, 0, 1, Scanner.Step(Token(Unknown, "ab", NoLiteral, 1), 4, 1));
    assert Scan(s, 0, 1) == [Token(Unknown, "ab", NoLiteral, 1)];
    assert FirstUnknown(Scan(s, 0, 1)) == Some(0);
  }

  /** "a" followed by +( loses the '+'. */
  lemma CharAfterStringLost()
    ensures Scan("\"a\"+(", 0, 1) == [Token(Str, "a", StrLiteral("a"), 1), FromTy(LParen)]
  {
    var s := "\"a\"+(";
    StringSkipsPlus();
    ScanUnfold(s, 0, 1, Scanner.Step(Token(Str, "a", StrLiteral("a"), 1), 4, 1));
    assert StepAt(s, 4, 1) == Some(Scanner.Step(FromTy(LParen), 5, 1));
    ScanUnfold(s, 4, 1, Scanner.Step(FromTy(LParen), 5, 1));
    ScanStops(s, 5, 1);
  }

  /** The first step over "a"+( ends after the '+'. */
  lemma StringSkipsPlus()
    ensures StepAt("\"a\"+(", 0, 1) == Some(Scanner.Step(Token(Str, "a", StrLiteral("a"), 1), 4, 1))
  {
    var s := "\"a\"+(";
    assert Scanner.TakeWhileEnd(s, 1, Scanner.NotQuote) == 2;
    assert s[1..2] == "a";
    assert StepAt(s, 0, 1) == Some(StringStep(s, 1, 1));
  }
}
