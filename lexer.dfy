// The lexer: a cursor over the program text with line and column tracking,
// a keyword table, greedy two-character operators and comment skipping.
//
// The pure functions below describe one step of the cursor and each scanning
// loop; the class Lexer holds the mutable cursor and its methods are proved
// to follow those functions.
module Lexer {
  import opened Wrappers
  import opened Tokens

  /** The character the cursor reports once it has run off the text. */
  const EndChar: char := '\U{FFFF}'

  // ASCII character classes (the source uses the Unicode ones).
  predicate IsWhiteSpace(c: char) {
    c == ' ' || c == '\t' || c == '\n' || c == '\U{000B}' || c == '\U{000C}' || c == '\r'
  }

  predicate IsDigit(c: char) {
    '0' <= c <= '9'
  }

  predicate IsLetter(c: char) {
    'a' <= c <= 'z' || 'A' <= c <= 'Z'
  }

  predicate IsLetterOrDigit(c: char) {
    IsLetter(c) || IsDigit(c)
  }

  /** The two lexeme classes: identifiers and strings take letters, digits
      and `_`; numbers take letters, digits and `.`. */
  datatype CharClass = IdentifierChars | NumberChars

  predicate InClass(cls: CharClass, c: char) {
    IsLetterOrDigit(c) || (cls == IdentifierChars && c == '_') || (cls == NumberChars && c == '.')
  }

  /** The table of reserved words. */
  function KeywordKind(s: string): Option<TokenKind> {
    match s
    case "return" => Some(Return)
    case "break" => Some(Break)
    case "continue" => Some(Continue)
    case "void" => Some(TypeVoid)
    case "number" => Some(TypeNumber)
    case "bool" => Some(TypeBool)
    case "string" => Some(TypeString)
    case "true" => Some(ConstBool)
    case "false" => Some(ConstBool)
    case "if" => Some(If)
    case "elif" => Some(Elif)
    case "else" => Some(Else)
    case "while" => Some(While)
    case "for" => Some(For)
    case _ => None
  }

  /** The operator and punctuation table: the token kind and how many
      characters it spans, given the current and the next character. A
      two-character operator is preferred over its one-character prefix. */
  function SymbolToken(c: char, next: char): Option<(TokenKind, nat)> {
    match c
    case ';' => Some((Semicolon, 1))
    case ':' => Some((Colon, 1))
    case ',' => Some((Comma, 1))
    case '+' => Some((Plus, 1))
    case '-' => Some((Minus, 1))
    case '*' => Some((Multiplication, 1))
    case '/' => Some((Divide, 1))
    case '%' => Some((Modulo, 1))
    case '(' => Some((LeftParen, 1))
    case ')' => Some((RightParen, 1))
    case '{' => Some((ScopeBegin, 1))
    case '}' => Some((ScopeEnd, 1))
    case '[' => Some((LeftBracket, 1))
    case ']' => Some((RightBracket, 1))
    case '=' => if next == '=' then Some((Equal, 2)) else Some((Assign, 1))
    case '>' => if next == '=' then Some((GreaterEqual, 2)) else Some((Greater, 1))
    case '<' => if next == '=' then Some((LessEqual, 2)) else Some((Less, 1))
    case '!' => if next == '=' then Some((NotEqual, 2)) else Some((Not, 1))
    case '&' => if next == '&' then Some((And, 2)) else None
    case '|' => if next == '|' then Some((Or, 2)) else None
    case _ => None
  }

  datatype LexError =
    | LexerError(ch: char, line: nat, column: nat)
      /** A comment that runs to the end of the text (the source loops forever). */
    | UnterminatedComment(line: nat, column: nat)

  /** The lexer's cursor: offset into the text, line, column and the
      character under the cursor. */
  datatype Cursor = Cursor(position: nat, line: nat, column: nat, current: char)

  function CharAt(text: seq<char>, i: nat): char {
    if i < |text| then text[i] else EndChar
  }

  ghost predicate Wf(text: seq<char>, c: Cursor) {
    c.current == CharAt(text, c.position)
  }

  function Start(text: seq<char>): (c: Cursor)
    requires |text| > 0
    ensures Wf(text, c)
  {
    Cursor(0, 1, 1, text[0])
  }

  /** The character after the cursor, or EndChar past the end. */
  function NextChar(text: seq<char>, c: Cursor): char {
    CharAt(text, c.position + 1)
  }

  /** One advance of the cursor: leaving `\n` starts a new line (column 0, and
      the step itself adds one), leaving `\t` adds four columns, anything else
      one; running off the end leaves the column alone. */
  function Step(text: seq<char>, c: Cursor): (d: Cursor)
    ensures d.position == c.position + 1
    ensures Wf(text, d)
  {
    var line := if c.current == '\n' then c.line + 1 else c.line;
    var column := if c.current == '\n' then 0 else c.column;
    var p := c.position + 1;
    if p >= |text| then Cursor(p, line, column, EndChar)
    else Cursor(p, line, column + (if c.current == '\t' then 4 else 1), text[p])
  }

  function Steps(text: seq<char>, c: Cursor, n: nat): (d: Cursor)
    ensures d.position == c.position + n
    ensures n > 0 ==> Wf(text, d)
    decreases n
  {
    if n == 0 then c else Steps(text, Step(text, c), n - 1)
  }

  /** The whitespace-skipping loop. */
  function SkipWs(text: seq<char>, c: Cursor): (d: Cursor)
    requires Wf(text, c)
    ensures Wf(text, d) && d.position >= c.position
    ensures !IsWhiteSpace(d.current) || d.current == EndChar
    ensures IsWhiteSpace(c.current) && c.current != EndChar ==> d.position > c.position
    decreases |text| - c.position
  {
    if IsWhiteSpace(c.current) && c.current != EndChar then SkipWs(text, Step(text, c)) else c
  }

  /** The `/* ... */` loop, started on the `/`: it stops on the first `*`
      followed by `/` and steps over both; None when the text ends first. */
  function SkipBlock(text: seq<char>, c: Cursor): (d: Option<Cursor>)
    requires Wf(text, c)
    ensures d.Some? ==> Wf(text, d.value) && c.position + 2 <= d.value.position <= |text| + 1
    decreases |text| - c.position
  {
    if c.position >= |text| then None
    else if c.current == '*' && NextChar(text, c) == '/' then Some(Steps(text, c, 2))
    else SkipBlock(text, Step(text, c))
  }

  /** The `// ...` loop: it stops on the first `\n` and steps over it; None
      when the text ends first. */
  function SkipLine(text: seq<char>, c: Cursor): (d: Option<Cursor>)
    requires Wf(text, c)
    ensures d.Some? ==> Wf(text, d.value) && c.position < d.value.position <= |text|
    decreases |text| - c.position
  {
    if c.position >= |text| then None
    else if c.current == '\n' then Some(Step(text, c))
    else SkipLine(text, Step(text, c))
  }

  datatype Scanned = Scanned(lexeme: string, after: Cursor)

  /** The lexeme loop: the maximal run of characters of the class starting
      at the cursor, and the cursor just after it. */
  function Lexeme(text: seq<char>, c: Cursor, cls: CharClass): (r: Scanned)
    requires Wf(text, c)
    ensures Wf(text, r.after)
    ensures r.after.position == c.position + |r.lexeme|
    ensures |r.lexeme| > 0 ==> r.after.position <= |text| && r.lexeme == text[c.position..r.after.position]
    ensures forall i :: 0 <= i < |r.lexeme| ==> InClass(cls, r.lexeme[i]) && r.lexeme[i] != EndChar
    ensures !InClass(cls, r.after.current) || r.after.current == EndChar
    decreases |text| - c.position
  {
    if InClass(cls, c.current) && c.current != EndChar then
      var rest := Lexeme(text, Step(text, c), cls);
      Scanned([c.current] + rest.lexeme, rest.after)
    else
      Scanned([], c)
  }

  /** One call of GetNextToken: skip whitespace and comments, then scan one
      token; EOF once the cursor reports the end character. */
  function NextTokenFrom(text: seq<char>, c: Cursor): (r: Result<(Token, Cursor), LexError>)
    requires Wf(text, c)
    ensures r.Success? ==> Wf(text, r.value.1)
    decreases |text| + 1 - c.position
  {
    if c.current == EndChar then
      Success((Token(EOF, None, c.line, c.column), c))
    else if IsWhiteSpace(c.current) then
      NextTokenFrom(text, SkipWs(text, c))
    else if IsDigit(c.current) then
      var s := Lexeme(text, c, NumberChars);
      Success((Token(ConstNumber, Some(s.lexeme), c.line, c.column), s.after))
    else if IsLetterOrDigit(c.current) then
      var s := Lexeme(text, c, IdentifierChars);
      var kind := if KeywordKind(s.lexeme).Some? then KeywordKind(s.lexeme).value else Identifier;
      Success((Token(kind, Some(s.lexeme), c.line, c.column), s.after))
    else if c.current == '"' then
      var open := Step(text, c);
      var s := Lexeme(text, open, IdentifierChars);
      Success((Token(ConstString, Some(s.lexeme), open.line, open.column), Step(text, s.after)))
    else if c.current == '/' && NextChar(text, c) == '*' then
      match SkipBlock(text, c)
      case None => Failure(UnterminatedComment(c.line, c.column))
      case Some(d) => NextTokenFrom(text, d)
    else if c.current == '/' && NextChar(text, c) == '/' then
      match SkipLine(text, c)
      case None => Failure(UnterminatedComment(c.line, c.column))
      case Some(d) => NextTokenFrom(text, d)
    else
      match SymbolToken(c.current, NextChar(text, c))
      case None => Failure(LexerError(c.current, c.line, c.column))
      case Some((kind, width)) => Success((Token(kind, None, c.line, c.column), Steps(text, c, width)))
  }

  // ---------------------------------------------------------------------
  // Properties of the token function

  /** Once GetNextToken has answered EOF, every later call answers the same
      EOF token and leaves the cursor where it is. */
  lemma {:induction false} EofIsSticky(text: seq<char>, c: Cursor)
    requires Wf(text, c)
    requires NextTokenFrom(text, c).Success? && NextTokenFrom(text, c).value.0.kind == EOF
    ensures var (t, d) := NextTokenFrom(text, c).value;
            NextTokenFrom(text, d) == Success((t, d))
    decreases |text| + 1 - c.position
  {
    if c.current == EndChar {
    } else if IsWhiteSpace(c.current) {
      EofIsSticky(text, SkipWs(text, c));
    } else if c.current == '/' && NextChar(text, c) == '*' {
      EofIsSticky(text, SkipBlock(text, c).value);
    } else if c.current == '/' && NextChar(text, c) == '/' {
      EofIsSticky(text, SkipLine(text, c).value);
    }
  }

  /** Past the end of the text the token is EOF at the cursor's position. */
  lemma PastEndIsEof(text: seq<char>, c: Cursor)
    requires Wf(text, c) && c.position >= |text|
    ensures NextTokenFrom(text, c) == Success((Token(EOF, None, c.line, c.column), c))
  {
  }

  /** A token that starts with a letter is the maximal run of letters,
      digits and `_`: the keyword of that spelling when the table has one,
      an Identifier carrying exactly the run otherwise. */
  lemma WordToken(text: seq<char>, c: Cursor)
    requires Wf(text, c) && IsLetter(c.current) && c.current != EndChar
    ensures var s := Lexeme(text, c, IdentifierChars);
            var end := c.position + |s.lexeme|;
            && |s.lexeme| > 0 && end <= |text|
            && s.lexeme == text[c.position..end]
            && (end == |text| || !InClass(IdentifierChars, text[end]) || text[end] == EndChar)
            && NextTokenFrom(text, c).Success?
            && NextTokenFrom(text, c).value.0.lexeme == Some(s.lexeme)
            && NextTokenFrom(text, c).value.0.kind ==
               (if KeywordKind(s.lexeme).Some? then KeywordKind(s.lexeme).value else Identifier)
  {
  }

  /** A token that starts with a digit is a ConstNumber carrying the
      maximal run of letters, digits and `.`. */
  lemma NumberToken(text: seq<char>, c: Cursor)
    requires Wf(text, c) && IsDigit(c.current)
    ensures var s := Lexeme(text, c, NumberChars);
            && |s.lexeme| > 0 && s.lexeme[0] == c.current
            && NextTokenFrom(text, c) ==
               Success((Token(ConstNumber, Some(s.lexeme), c.line, c.column), s.after))
  {
  }

  /** The six two-character operators are single tokens; `&` and `|` exist
      only doubled. */
  lemma TwoCharacterOperators(c: char, next: char)
    ensures [c, next] == "==" ==> SymbolToken(c, next) == Some((Equal, 2))
    ensures [c, next] == ">=" ==> SymbolToken(c, next) == Some((GreaterEqual, 2))
    ensures [c, next] == "<=" ==> SymbolToken(c, next) == Some((LessEqual, 2))
    ensures [c, next] == "!=" ==> SymbolToken(c, next) == Some((NotEqual, 2))
    ensures [c, next] == "&&" ==> SymbolToken(c, next) == Some((And, 2))
    ensures [c, next] == "||" ==> SymbolToken(c, next) == Some((Or, 2))
    ensures (c == '&' || c == '|') && next != c ==> SymbolToken(c, next).None?
    ensures SymbolToken(c, next).Some? && SymbolToken(c, next).value.1 == 2 ==>
              [c, next] in ["==", ">=", "<=", "!=", "&&", "||"]
  {
  }

  /** A character that starts no token is a LexerError at its position. */
  lemma UnknownCharacterIsAnError(text: seq<char>, c: Cursor)
    requires Wf(text, c) && c.current != EndChar
    requires !IsWhiteSpace(c.current) && !IsLetterOrDigit(c.current) && c.current != '"' && c.current != '/'
    requires SymbolToken(c.current, NextChar(text, c)).None?
    ensures NextTokenFrom(text, c) == Failure(LexerError(c.current, c.line, c.column))
  {
  }

  /** Comments produce no token: the answer is the one after the comment. */
  lemma CommentsProduceNoToken(text: seq<char>, c: Cursor)
    requires Wf(text, c) && c.current == '/'
    ensures NextChar(text, c) == '*' && SkipBlock(text, c).Some? ==>
              NextTokenFrom(text, c) == NextTokenFrom(text, SkipBlock(text, c).value)
    ensures NextChar(text, c) == '/' && SkipLine(text, c).Some? ==>
              NextTokenFrom(text, c) == NextTokenFrom(text, SkipLine(text, c).value)
  {
  }

  /** Advancing over `n` characters none of which is `\n` or `\t`, staying
      inside the text, moves the column by exactly `n` on the same line. */
  lemma {:induction false} ColumnsOfPlainRun(text: seq<char>, c: Cursor, n: nat)
    requires Wf(text, c) && c.position + n < |text|
    requires forall i :: c.position <= i < c.position + n ==> text[i] != '\n' && text[i] != '\t'
    ensures Steps(text, c, n) == Cursor(c.position + n, c.line, c.column + n, text[c.position + n])
    decreases n
  {
    if n > 0 {
      ColumnsOfPlainRun(text, Step(text, c), n - 1);
    }
  }

  /** Leaving a newline moves to the next line: column 1 when a character
      follows, column 0 at the end of the text. */
  lemma NewlineStartsALine(text: seq<char>, c: Cursor)
    requires Wf(text, c) && c.current == '\n'
    ensures Step(text, c).line == c.line + 1
    ensures Step(text, c).column == if c.position + 1 < |text| then 1 else 0
  {
  }

  /** Leaving a tab keeps the line and moves the column by four when a
      character follows; at the end of the text the column stays. */
  lemma TabAdvancesFour(text: seq<char>, c: Cursor)
    requires Wf(text, c) && c.current == '\t'
    ensures Step(text, c).line == c.line
    ensures Step(text, c).column == if c.position + 1 < |text| then c.column + 4 else c.column
  {
  }

  /** A string token records the position just after its opening quote. */
  lemma StringTokenPosition(text: seq<char>, c: Cursor)
    requires Wf(text, c) && c.current == '"'
    ensures NextTokenFrom(text, c).Success?
    ensures var t := NextTokenFrom(text, c).value.0;
            t.kind == ConstString && t.line == Step(text, c).line && t.column == Step(text, c).column
  {
  }

  // ---------------------------------------------------------------------
  // The lexer object

  class Lexer {
    const text: seq<char>
    var position: nat
    var lineNumber: nat
    var column: nat
    var currentChar: char

    function Cur(): Cursor
      reads this
    {
      Cursor(position, lineNumber, column, currentChar)
    }

    ghost predicate Valid()
      reads this
    {
      Wf(text, Cur())
    }

    /** The source reads the first character unconditionally, so the text
        must not be empty. */
    constructor (text: seq<char>)
      requires |text| > 0
      ensures Valid() && this.text == text && Cur() == Start(text)
    {
      this.text := text;
      position := 0;
      lineNumber := 1;
      column := 1;
      currentChar := text[0];
    }

    method Advance(howMany: nat)
      requires Valid()
      modifies this
      ensures Cur() == Steps(text, old(Cur()), howMany)
      ensures Valid()
    {
      var i := 0;
      while i < howMany
        invariant 0 <= i <= howMany
        invariant Valid()
        invariant Steps(text, Cur(), howMany - i) == Steps(text, old(Cur()), howMany)
      {
        if currentChar == '\n' {
          lineNumber := lineNumber + 1;
          column := 0;
        }
        position := position + 1;
        if position >= |text| {
          currentChar := EndChar;
        } else {
          if currentChar == '\t' {
            column := column + 4;
          } else {
            column := column + 1;
          }
          currentChar := text[position];
        }
        i := i + 1;
      }
    }

    method SkipWhitespace()
      requires Valid()
      modifies this
      ensures Valid() && Cur() == SkipWs(text, old(Cur()))
    {
      while IsWhiteSpace(currentChar) && currentChar != EndChar
        invariant Valid()
        invariant SkipWs(text, Cur()) == SkipWs(text, old(Cur()))
        decreases |text| - position
      {
        Advance(1);
      }
    }

    /** Skips a `/* ... */` comment; the cursor is on its `/`. */
    method SkipComment() returns (r: Outcome<LexError>)
      requires Valid()
      modifies this
      ensures Valid()
      ensures SkipBlock(text, old(Cur())).None? <==> r.Fail?
      ensures r.Pass? ==> Cur() == SkipBlock(text, old(Cur())).value
      ensures r.Fail? ==> r.error == UnterminatedComment(old(lineNumber), old(column))
    {
      var line, col := lineNumber, column;
      while currentChar != '*' || NextChar(text, Cur()) != '/'
        invariant Valid()
        invariant SkipBlock(text, Cur()) == SkipBlock(text, old(Cur()))
        decreases |text| - position
      {
        if position >= |text| {
          return Fail(UnterminatedComment(line, col));
        }
        Advance(1);
      }
      if position >= |text| {
        return Fail(UnterminatedComment(line, col));
      }
      Advance(2);
      return Pass;
    }

    /** Skips a `// ...` comment up to and including its newline. */
    method SkipSingleLineComment() returns (r: Outcome<LexError>)
      requires Valid()
      modifies this
      ensures Valid()
      ensures SkipLine(text, old(Cur())).None? <==> r.Fail?
      ensures r.Pass? ==> Cur() == SkipLine(text, old(Cur())).value
      ensures r.Fail? ==> r.error == UnterminatedComment(old(lineNumber), old(column))
    {
      var line, col := lineNumber, column;
      while currentChar != '\n'
        invariant Valid()
        invariant SkipLine(text, Cur()) == SkipLine(text, old(Cur()))
        decreases |text| - position
      {
        if position >= |text| {
          return Fail(UnterminatedComment(line, col));
        }
        Advance(1);
      }
      if position >= |text| {
        return Fail(UnterminatedComment(line, col));
      }
      Advance(1);
      return Pass;
    }

    /** Operators and punctuation; None for a character outside the table. */
    method GetToken() returns (t: Option<Token>)
      requires Valid()
      modifies this
      ensures Valid()
      ensures var sym := SymbolToken(old(currentChar), NextChar(text, old(Cur())));
              && (sym.None? <==> t.None?)
              && (sym.Some? ==> t.value == Token(sym.value.0, None, old(lineNumber), old(column))
                                && Cur() == Steps(text, old(Cur()), sym.value.1))
    {
      var line, col := lineNumber, column;
      var sym := SymbolToken(currentChar, NextChar(text, Cur()));
      match sym {
        case None =>
          return None;
        case Some((kind, width)) =>
          Advance(width);
          return Some(Token(kind, None, line, col));
      }
    }

    method GetLexeme(cls: CharClass) returns (s: string)
      requires Valid()
      modifies this
      ensures Valid()
      ensures Lexeme(text, old(Cur()), cls) == Scanned(s, Cur())
    {
      s := [];
      while InClass(cls, currentChar) && currentChar != EndChar
        invariant Valid()
        invariant Lexeme(text, old(Cur()), cls) ==
                  Scanned(s + Lexeme(text, Cur(), cls).lexeme, Lexeme(text, Cur(), cls).after)
        decreases |text| - position
      {
        s := s + [currentChar];
        Advance(1);
      }
    }

    method GetIdentifier() returns (t: Token)
      requires Valid()
      modifies this
      ensures Valid()
      ensures var s := Lexeme(text, old(Cur()), IdentifierChars);
              && Cur() == s.after
              && t.lexeme == Some(s.lexeme) && t.line == old(lineNumber) && t.column == old(column)
              && t.kind == (if KeywordKind(s.lexeme).Some? then KeywordKind(s.lexeme).value else Identifier)
    {
      var line, col := lineNumber, column;
      var result := GetLexeme(IdentifierChars);
      match KeywordKind(result) {
        case Some(kind) =>
          return Token(kind, Some(result), line, col);
        case None =>
          return Token(Identifier, Some(result), line, col);
      }
    }

    method GetNumber() returns (t: Token)
      requires Valid()
      modifies this
      ensures Valid()
      ensures var s := Lexeme(text, old(Cur()), NumberChars);
              Cur() == s.after && t == Token(ConstNumber, Some(s.lexeme), old(lineNumber), old(column))
    {
      var line, col := lineNumber, column;
      var result := GetLexeme(NumberChars);
      return Token(ConstNumber, Some(result), line, col);
    }

    /** A string: the run after the opening quote; the character after the
        run is stepped over whatever it is. */
    method GetString() returns (t: Token)
      requires Valid()
      modifies this
      ensures Valid()
      ensures var open := Step(text, old(Cur()));
              var s := Lexeme(text, open, IdentifierChars);
              Cur() == Step(text, s.after) && t == Token(ConstString, Some(s.lexeme), open.line, open.column)
    {
      Advance(1);
      var line, col := lineNumber, column;
      var value := GetLexeme(IdentifierChars);
      Advance(1);
      return Token(ConstString, Some(value), line, col);
    }

    /** The next token, or the lexer error the source throws. */
    method GetNextToken() returns (r: Result<Token, LexError>)
      requires Valid()
      modifies this
      ensures Valid()
      ensures var spec := NextTokenFrom(text, old(Cur()));
              && (r.Success? <==> spec.Success?)
              && (r.Success? ==> r.value == spec.value.0 && Cur() == spec.value.1)
              && (r.Failure? ==> r.error == spec.error)
    {
      while currentChar != EndChar
        invariant Valid()
        invariant NextTokenFrom(text, Cur()) == NextTokenFrom(text, old(Cur()))
        decreases |text| + 1 - position
      {
        if IsWhiteSpace(currentChar) {
          SkipWhitespace();
          continue;
        }
        if IsDigit(currentChar) {
          var t := GetNumber();
          return Success(t);
        }
        if IsLetterOrDigit(currentChar) {
          var t := GetIdentifier();
          return Success(t);
        }
        if currentChar == '"' {
          var t := GetString();
          return Success(t);
        }
        if currentChar == '/' && NextChar(text, Cur()) == '*' {
          var ok := SkipComment();
          if ok.Fail? {
            return Failure(ok.error);
          }
          continue;
        }
        if currentChar == '/' && NextChar(text, Cur()) == '/' {
          var ok := SkipSingleLineComment();
          if ok.Fail? {
            return Failure(ok.error);
          }
          continue;
        }
        var line, col, ch := lineNumber, column, currentChar;
        var token := GetToken();
        if token.None? {
          return Failure(LexerError(ch, line, col));
        }
        return Success(token.value);
      }
      return Success(Token(EOF, None, lineNumber, column));
    }
  }
}
