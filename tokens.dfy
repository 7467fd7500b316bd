// Token kinds, tokens and the error codes shared by the lexer, the parser and
// the semantic analyser.
module Tokens {
  import opened Wrappers

  datatype TokenKind =
    | TypeVoid | TypeNumber | TypeBool | TypeString
    | ConstNumber | ConstBool | ConstString
    | If | Elif | Else | While | For
    | Plus | Minus | Multiplication | Divide | Modulo
    | Not | And | Or | Equal | NotEqual | Greater | GreaterEqual | Less | LessEqual
    | Identifier
    | Return | Break | Continue
    | ScopeBegin | ScopeEnd | LeftParen | RightParen | LeftBracket | RightBracket
    | Assign | Semicolon | Colon | Comma
    | EOF

  /** A token: its kind, its text (absent for punctuation and EOF) and the
      line and column of its first character. */
  datatype Token = Token(kind: TokenKind, lexeme: Option<string>, line: nat, column: nat)

  /** The text a name is looked up by; an absent text behaves like a name
      no symbol carries. */
  function Name(t: Token): string {
    if t.lexeme.Some? then t.lexeme.value else ""
  }

  datatype ErrorCode =
    | MissingMain
    | UnexpectedToken
    | IdentifierNotFound
    | DuplicateIdentifier
    | WrongParamNumber
    | MissingReturnStatement
    | IncorrectType
    | InvalidIdentifier
    | IncompatibleTypes
}
