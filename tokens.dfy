/** Tokens shared by both scanners and the parser (src/token.rs). */
module Tokens {
  import Ast

  /** The token kinds of src/token.rs, plus Literal, the value-carrying kind
      the parser's first token must have (src/parser.rs:84). */
  datatype TokenType =
    | Str | WhiteSpace | NewLine
    | LParen | RParen | LBrace | RBrace | Comma | Dot
    | Plus | PlusAssign | Minus | MinusAssign | Slash | Star
    | Bang | BangEqual | Equal | Assign
    | Greater | GreaterEqual | Less | LessEqual
    | Identifier | Number | And | Or | Struct
    | If | Else | Elif | True | False | Function | For | While | Print
    | EOF | Hash | Unknown
    | Literal(value: Ast.Atom)

  /** The closed replacement for the boxed literal of a token: nothing, a
      string, or a number. */
  datatype LiteralValue = NoLiteral | StrLiteral(s: string) | NumLiteral(n: real)

  datatype Token = Token(ty: TokenType, lexeme: string, literal: LiteralValue, line: nat)

  /** A token of the given kind with no lexeme, no literal and line 0. */
  function FromTy(ty: TokenType): Token {
    Token(ty, [], NoLiteral, 0)
  }
}
