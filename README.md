# A verified model of a small C-like interpreter

The modelled system is a pipeline for a small C-like language: a lexer
turns the program text into tokens; a recursive-descent parser builds a
syntax tree; a semantic analyser checks names and types over a chain of
scoped symbol tables; and a tree-walking interpreter runs the program's
`Main` function over a call stack of activation records.

Each stage is modelled in the form the source gives it.

- **The value-level rules.** Every stage's rules are written once as pure
  functions over values:
  - `Lexer` holds the scanning functions;
  - `Grammar` is the grammar over the token stream;
  - `SymbolTables` holds the scope-chain lookups;
  - `Analysis` holds the analyser's visits, over a state holding the scope chain;
  - `Evaluation` holds the evaluator's visits, over a state holding the call stack and the printed output.
- **The imperative form.** The stages that work by changing state are also
  written as classes with the source's fields:
  - `Lexer.Lexer` is a cursor over the text;
  - `ParserService.Parser` is a five-token lookahead window that `Eat` shifts;
  - `SymbolTables.ScopedSymbolTable` holds a symbol list and a link to its enclosing table;
  - `Analyzer.SemanticAnalyzer` holds the current scope table;
  - `Memory.ActivationRecord` and `Memory.CallStack` are the interpreter's memory;
  - `InterpreterService.Interpreter` is the evaluator.

  Every method of these classes is proved to return what the matching
  function returns, and to leave the objects in the state that function
  describes.
- **The lemmas.** Further modules state what those functions mean:
  - `GrammarProperties` and `ArithmeticPrecedence` cover lookahead decisions, defaults and operator precedence;
  - `AnalysisFrames` and `AnalysisProperties` cover the scope discipline, the typing rules, the error cases and the return-statement search;
  - `EvaluationProperties` covers the stack discipline, the control signals of blocks, loops and branches, declarations, assignments and indexing;
  - `ArithmeticEvaluation` covers an expression from its tokens to its value.

Behaviour that looks unintended is modelled as written, and a corrected
definition stands beside it (see "## Findings"):
- `IntendedAnalysis` corrects `print` and comparisons;
- `IntendedEvaluation` corrects call statements;
- `Symbols.ConsistentHashInput` corrects the symbol hash.

Values are explicit:
- the host's untyped values become `Values.Value`;
- thrown exceptions and null results become `Result` and `Option` values;
- console output is a sequence of printed lines carried in the evaluator's state.

## Model

| member | source | states |
|---|---|---|
| Symbols.Equals | Interpreter/Common/Symbols/Symbol.cs:18-28 | a symbol equals only a non-null object of the same class with the same name (and the same type, through `Eq`); a different class or name never compares equal |
| Symbols.OperatorAgreesWithEquals | Interpreter/Common/Symbols/Symbol.cs:30-38 | `==` on symbols is `Equals` for a non-null left side and "both null" otherwise; `!=` is its negation |
| Symbols.EqReflexive | Interpreter/Common/Symbols/Symbol.cs:18-33 | every symbol, and null, equals itself |
| Symbols.EqSymmetric | Interpreter/Common/Symbols/Symbol.cs:18-33 | symbol equality does not depend on the order of its operands |
| Symbols.EqTransitive | Interpreter/Common/Symbols/Symbol.cs:18-33 | symbol equality is transitive |
| Symbols.TypeChain | Interpreter/Common/Symbols/Symbol.cs:9-10 | the chain of (class, name) pairs along a symbol's `Type` links is empty exactly for null |
| Symbols.EqIsChainAgreement | Interpreter/Common/Symbols/Symbol.cs:18-38 | two symbols are equal exactly when their chains of (class, name) pairs through `Type` agree |
| Symbols.ClassTakesPartInEquality | Interpreter/Common/Symbols/Symbol.cs:20 | a builtin type symbol never equals a plain symbol of the same name, and does equal itself |
| Symbols.HashInputOf | Interpreter/Common/Symbols/Symbol.cs:40-43 | the hash code is computed from the name, the type and the scope level |
| Symbols.EqualSymbolsWithDifferentHashInputs | Interpreter/Common/Symbols/Symbol.cs:18-43 | two symbols that differ only in scope level are equal yet have different hash inputs (the finding below) |
| Symbols.ConsistentHashInput | Interpreter/Common/Symbols/Symbol.cs:40-43 | the corrected hash input starts with the symbol's class and name and leaves the scope level out |
| Symbols.ConsistentHashRespectsEquality | Interpreter/Common/Symbols/Symbol.cs:18-43 | equal symbols have equal corrected hash inputs |
| Values.ToLower | Interpreter/Extensions/StringExtensions.cs:14 | lower-casing keeps the length and maps each character on its own |
| Values.TrimStart | Interpreter/Extensions/StringExtensions.cs:19 | the result is a suffix of the input that does not start with white space |
| Values.TrimEnd | Interpreter/Extensions/StringExtensions.cs:19 | the result is a prefix of the input that does not end with white space |
| Values.ToBool | Interpreter/Extensions/StringExtensions.cs:12-20 | a failure is a `FormatException` carrying the input; a success means the input is already lower case and, trimmed, spells the result's name |
| Values.LowerChangesUpper | Interpreter/Extensions/StringExtensions.cs:14 | lower-casing leaves a string unchanged exactly when it has no upper-case letter |
| Values.TrimNothing | Interpreter/Extensions/StringExtensions.cs:19 | a string that neither starts nor ends with white space is its own trim |
| Values.ToBoolRoundTrip | Interpreter/Extensions/StringExtensions.cs:12-20 | `"true"` and `"false"` read back as the booleans they name |
| Values.ToBoolRejectsUpperCase | Interpreter/Extensions/StringExtensions.cs:14-17 | any text with an upper-case letter is rejected with a `FormatException` before parsing |
| Values.TrimBlank | Interpreter/Extensions/StringExtensions.cs:19 | a string of white space trims to the empty string |
| Values.OneCharacterIsNoName | Interpreter/Extensions/StringExtensions.cs:19 | no single character is a boolean's name |
| Values.ToBoolRejectsCapitalised | Interpreter/Extensions/StringExtensions.cs:14-17 | `"True"` and `"FALSE"` are rejected, although the host's own boolean parser would take them |
| Values.ToBoolRejectsOthers | Interpreter/Extensions/StringExtensions.cs:19 | empty text, blank text and other words are rejected |
| Values.NatText | Interpreter/Common/Extensions/CollectionExtensions.cs:10 | a number's text is a non-empty run of decimal digits |
| Values.ToPrint | Interpreter/Common/Extensions/CollectionExtensions.cs:8-14 | the printed form of a list is bracketed |
| Values.JoinLength | Interpreter/Common/Extensions/CollectionExtensions.cs:11 | the joined text is as long as the items together plus one separator between each two neighbours |
| Values.JoinConcat | Interpreter/Common/Extensions/CollectionExtensions.cs:11 | joining two non-empty runs of items is joining each with one separator between them |
| Values.ItemInJoin | Interpreter/Common/Extensions/CollectionExtensions.cs:11 | every item appears whole at its place, between the join of the items before it and the join of those after it, with one separator on each side that has neighbours |
| Values.ToPrintContents | Interpreter/Common/Extensions/CollectionExtensions.cs:8-14 | a one-item list prints as the item in brackets, a longer one as its first item, `", "` and the join of the rest, in brackets |
| Values.JoinAppend | Interpreter/Common/Extensions/CollectionExtensions.cs:11 | appending an item to the list appends a separator and the item to the joined text |
| Values.ToPrintEmpty | Interpreter/Common/Extensions/CollectionExtensions.cs:8-14 | an empty list prints as `[]` |
| Values.ToPrintOneTwoThree | Interpreter/Common/Extensions/CollectionExtensions.cs:8-14 | the list of 1, 2 and 3 prints as `[1, 2, 3]` |
| Memory.FrameSet | Interpreter/Memory/ActivationRecord.cs:20-27 | writing a member adds the key if it is missing, makes it read back the new value, and keeps the record's name, kind, level and every other member |
| Memory.FrameAt | Interpreter/Memory/ActivationRecord.cs:19 | the indexer succeeds exactly when the key is present, with the stored value, and otherwise fails with `KeyNotFound` for that key |
| Memory.FrameGet | Interpreter/Memory/ActivationRecord.cs:30-33 | `Get` yields the stored value of a present key and null for a missing one |
| Memory.SetThenRead | Interpreter/Memory/ActivationRecord.cs:17-33 | after a write the key reads back the written value through both the indexer and `Get`, and every other key reads as before |
| Memory.SetOverwrites | Interpreter/Memory/ActivationRecord.cs:20-27 | a second write to the same key replaces the first, as if only the second had happened |
| Memory.GetAgreesWithAt | Interpreter/Memory/ActivationRecord.cs:17-33 | `Get` agrees with the indexer wherever the indexer succeeds and yields null where it throws |
| Memory.StackTop | Interpreter/InterpreterService/Memory/CallStack.cs:11 | the top is the most recently pushed record, and an empty stack fails with `EmptyStack` |
| Memory.StackPush | Interpreter/InterpreterService/Memory/CallStack.cs:13-16 | a push makes the stack one record deeper (with `PushThenTopAndPop` for the contents) |
| Memory.StackPop | Interpreter/InterpreterService/Memory/CallStack.cs:18-21 | a pop on a non-empty stack yields the top record and the stack below it, which together make the old stack; an empty stack fails with `EmptyStack` |
| Memory.StackSetTop | Interpreter/InterpreterService/Memory/CallStack.cs:11 | writing through the top record changes only the top record, as `FrameSet` does, and fails with `EmptyStack` on an empty stack |
| Memory.PushThenTopAndPop | Interpreter/InterpreterService/Memory/CallStack.cs:11-21 | after a push the top is the pushed record and a pop gives it back with the stack as it was |
| Memory.PopThenPush | Interpreter/InterpreterService/Memory/CallStack.cs:13-21 | pushing back what a pop took restores the stack |
| Memory.ActivationRecord.constructor | Interpreter/Memory/ActivationRecord.cs:11 | a new record has the given name, kind and level and no members |
| Memory.ActivationRecord.Set | Interpreter/Memory/ActivationRecord.cs:20-27 | the indexer's setter changes the record as `FrameSet` says |
| Memory.ActivationRecord.At | Interpreter/Memory/ActivationRecord.cs:19 | the indexer's getter reads as `FrameAt` says |
| Memory.ActivationRecord.Get | Interpreter/Memory/ActivationRecord.cs:30-33 | `Get` reads as `FrameGet` says |
| Memory.CallStack.constructor | Interpreter/InterpreterService/Memory/CallStack.cs:9 | a new call stack is empty |
| Memory.CallStack.Top | Interpreter/InterpreterService/Memory/CallStack.cs:11 | `Top` reads as `StackTop` says |
| Memory.CallStack.Push | Interpreter/InterpreterService/Memory/CallStack.cs:13-16 | `Push` puts the record's contents on top of the stack |
| Memory.CallStack.Pop | Interpreter/InterpreterService/Memory/CallStack.cs:18-21 | `Pop` removes and yields the top record, and fails with `EmptyStack`, changing nothing, on an empty stack |
| Memory.CallStack.SetTop | Interpreter/InterpreterService/Memory/CallStack.cs:11 | writing a member of the top record changes the stack as `StackSetTop` says, and fails leaving it unchanged on an empty stack |
| Lexer.Start | Interpreter/LexerService/Lexer.cs:29-34 | a new lexer stands on the first character, at line 1, column 1 |
| Lexer.Step | Interpreter/LexerService/Lexer.cs:91-121 | one advance moves one character on and keeps the cursor's character in step with the text (the line and column rules are in `NewlineStartsALine`, `TabAdvancesFour` and `ColumnsOfPlainRun`) |
| Lexer.Steps | Interpreter/LexerService/Lexer.cs:91-121 | `Advance(n)` moves exactly n characters on |
| Lexer.SkipWs | Interpreter/LexerService/Lexer.cs:123-129 | skipping white space never moves back, stops on a character that is not white space or at the end, and moves on when it starts on white space |
| Lexer.SkipBlock | Interpreter/LexerService/Lexer.cs:131-138 | a block comment that is closed ends at least two characters on, within the text; one that is not closed is reported rather than looping |
| Lexer.SkipLine | Interpreter/LexerService/Lexer.cs:140-147 | a line comment ends just after its newline, within the text; one with no newline is reported rather than looping |
| Lexer.Lexeme | Interpreter/LexerService/Lexer.cs:291-302 | the lexeme is the maximal run of characters of the class at the cursor: a slice of the text, every character in the class, and the cursor after it on a character outside the class or at the end |
| Lexer.NextTokenFrom | Interpreter/LexerService/Lexer.cs:40-89 | one call of `GetNextToken` leaves a cursor in step with the text (its token forms are the lemmas below) |
| Lexer.EofIsSticky | Interpreter/LexerService/Lexer.cs:42-88 | once the lexer answers EOF, every later call answers the same EOF token and stays put |
| Lexer.PastEndIsEof | Interpreter/LexerService/Lexer.cs:42-88 | at the end of the text the token is EOF with the current line and column |
| Lexer.WordToken | Interpreter/LexerService/Lexer.cs:252-265 | a token starting with a letter is the maximal run of letters, digits and `_`, and is the keyword of that spelling when there is one and an identifier otherwise |
| Lexer.NumberToken | Interpreter/LexerService/Lexer.cs:267-275 | a token starting with a digit is a number constant holding the maximal run of letters, digits and `.`, at the digit's line and column |
| Lexer.TwoCharacterOperators | Interpreter/LexerService/Lexer.cs:149-250 | `==`, `>=`, `<=`, `!=`, `&&` and the double bar (logical or) are single two-character tokens, a lone `&` or bar is no token, and no other pair is one |
| Lexer.UnknownCharacterIsAnError | Interpreter/LexerService/Lexer.cs:78-83 | a character that starts no token is a lexer error carrying that character, its line and its column |
| Lexer.CommentsProduceNoToken | Interpreter/LexerService/Lexer.cs:65-76 | a closed block or line comment is skipped, and the token is the one after it |
| Lexer.ColumnsOfPlainRun | Interpreter/LexerService/Lexer.cs:91-121 | over n characters with no newline and no tab the column grows by n and the line stays |
| Lexer.TabAdvancesFour | Interpreter/LexerService/Lexer.cs:101-116 | stepping off a tab keeps the line and moves the column by four, or leaves it at the end of the text |
| Lexer.NewlineStartsALine | Interpreter/LexerService/Lexer.cs:95-116 | stepping off a newline increments the line and sets the column to 1, or 0 at the end of the text |
| Lexer.StringTokenPosition | Interpreter/LexerService/Lexer.cs:277-289 | a token starting with `"` is a string constant positioned just after the opening quote |
| Lexer.Lexer.constructor | Interpreter/LexerService/Lexer.cs:29-34 | a new lexer holds the text with its cursor at `Start` |
| Lexer.Lexer.Advance | Interpreter/LexerService/Lexer.cs:91-121 | the loop moves the cursor as `Steps` says |
| Lexer.Lexer.SkipWhitespace | Interpreter/LexerService/Lexer.cs:123-129 | the loop moves the cursor as `SkipWs` says |
| Lexer.Lexer.SkipComment | Interpreter/LexerService/Lexer.cs:131-138 | the loop ends where `SkipBlock` ends, and fails with an unterminated-comment error exactly when `SkipBlock` finds none |
| Lexer.Lexer.SkipSingleLineComment | Interpreter/LexerService/Lexer.cs:140-147 | the loop ends where `SkipLine` ends, and fails with an unterminated-comment error exactly when `SkipLine` finds none |
| Lexer.Lexer.GetToken | Interpreter/LexerService/Lexer.cs:149-250 | the symbol table decides: no token exactly when it has no entry for the character and its successor; otherwise the token of that kind at the start position, with the cursor moved over its width |
| Lexer.Lexer.GetLexeme | Interpreter/LexerService/Lexer.cs:291-302 | the loop collects the text and moves the cursor as `Lexeme` says |
| Lexer.Lexer.GetIdentifier | Interpreter/LexerService/Lexer.cs:252-265 | the word token carries the lexeme of letters, digits and `_` at the start position, with the cursor after it |
| Lexer.Lexer.GetNumber | Interpreter/LexerService/Lexer.cs:267-275 | the number token carries the lexeme of letters, digits and `.` at the start position |
| Lexer.Lexer.GetString | Interpreter/LexerService/Lexer.cs:277-289 | the string token carries the run after the opening quote, positioned after it, and the cursor steps over the character after the run |
| Lexer.Lexer.GetNextToken | Interpreter/LexerService/Lexer.cs:40-89 | the method yields exactly the token, cursor and error `NextTokenFrom` gives |
| Grammar.Next | Interpreter/ParserService/Parser.cs:293-307 | the token after the current one, staying on the final EOF once it is reached |
| Grammar.Eat | Interpreter/ParserService/Parser.cs:293-307 | eating succeeds exactly when the current token has the expected kind, moving one token on; otherwise an `UnexpectedToken` error on the current token naming the expected kind |
| Grammar.SkipComma | Interpreter/ParserService/Parser.cs:134-137 | an optional comma is skipped, never moving back |
| Grammar.MakeDecls | Interpreter/ParserService/Parser.cs:233-240 | one declaration per variable, in order, each with the shared type |
| Grammar.NonArrayType | Interpreter/ParserService/ParserTypeRelated.cs:20-25 | a plain type is the current token, whatever its kind, and moves one token on |
| Grammar.ArrayType | Interpreter/ParserService/ParserTypeRelated.cs:27-33 | an array rank is exactly the two tokens `[` `]` |
| Grammar.Type | Interpreter/ParserService/ParserTypeRelated.cs:8-18 | a type takes at least one token and stays within the stream (its forms are `TypeShapes`) |
| Grammar.Program | Interpreter/ParserService/Parser.cs:44-47 | a program is one statement and stays within the stream |
| Grammar.Statement | Interpreter/ParserService/Parser.cs:72-114 | a statement stays within the stream, and one that takes no token is the empty statement |
| Grammar.TypeLedStatement | Interpreter/ParserService/Parser.cs:82-98 | a statement led by a type keyword takes at least one token |
| Grammar.DeclarationStatement | Interpreter/ParserService/Parser.cs:92-98 | a declaration, with or without an assignment, takes at least one token |
| Grammar.IdentifierStatement | Interpreter/ParserService/Parser.cs:78-81 | a statement led by a name takes at least one token |
| Grammar.CallOrAssignment | Interpreter/ParserService/Parser.cs:79 | a call or an assignment takes at least one token |
| Grammar.Block | Interpreter/ParserService/Parser.cs:49-56 | a block takes at least its braces |
| Grammar.StatementList | Interpreter/ParserService/Parser.cs:58-70 | a statement list holds at least one statement |
| Grammar.StatementsTail | Interpreter/ParserService/Parser.cs:64-67 | the statement loop only adds statements and ends on `}` |
| Grammar.AssignmentStatement | Interpreter/ParserService/Parser.cs:116-122 | an assignment takes at least its `=` |
| Grammar.ArrayInitialization | Interpreter/ParserService/Parser.cs:124-143 | an array literal takes at least its brackets |
| Grammar.ArrayItems | Interpreter/ParserService/Parser.cs:131-138 | the item loop stays within the stream |
| Grammar.FunctionDefinition | Interpreter/ParserService/Parser.cs:145-158 | a function definition takes at least one token (its shape is `FunctionDefinitionShape`) |
| Grammar.ParameterList | Interpreter/ParserService/Parser.cs:160-182 | the parameter list stays within the stream |
| Grammar.ParametersTail | Interpreter/ParserService/Parser.cs:172-178 | the parameter loop only adds parameters |
| Grammar.FunctionCall | Interpreter/ParserService/Parser.cs:184-211 | a call takes at least its name and parentheses |
| Grammar.CallArguments | Interpreter/ParserService/Parser.cs:195-206 | the argument list stays within the stream |
| Grammar.ArgumentsTail | Interpreter/ParserService/Parser.cs:200-205 | the argument loop stays within the stream |
| Grammar.VariablesDeclarations | Interpreter/ParserService/Parser.cs:213-241 | declarations take at least one token and build a declarations node |
| Grammar.VariablesTail | Interpreter/ParserService/Parser.cs:227-231 | the name loop stays within the stream |
| Grammar.Variable | Interpreter/ParserService/Parser.cs:243-286 | a variable takes at least its name |
| Grammar.Slice | Interpreter/ParserService/Parser.cs:251-283 | a slice takes at least its brackets |
| Grammar.SliceFrom | Interpreter/ParserService/Parser.cs:254-261 | the slice start stays within the stream, taking nothing when it is omitted |
| Grammar.SliceTo | Interpreter/ParserService/Parser.cs:263-274 | the slice end stays within the stream |
| Grammar.SliceStep | Interpreter/ParserService/Parser.cs:276-280 | the slice step stays within the stream |
| Grammar.ReturnStatement | Interpreter/ParserService/ParserControlStatementRelated.cs:11-19 | a return statement takes at least one token |
| Grammar.SomeExpression | Interpreter/ParserService/ParserControlStatementRelated.cs:16 | an expression after `return` takes at least one token |
| Grammar.BreakStatement | Interpreter/ParserService/ParserControlStatementRelated.cs:21-27 | `break` takes exactly two tokens |
| Grammar.ContinueStatement | Interpreter/ParserService/ParserControlStatementRelated.cs:29-35 | `continue` takes exactly two tokens |
| Grammar.WhileStatement | Interpreter/ParserService/ParserControlStatementRelated.cs:37-47 | a while statement takes at least one token |
| Grammar.IfElseStatement | Interpreter/ParserService/ParserControlStatementRelated.cs:49-64 | an if statement takes at least one token |
| Grammar.ForStatement | Interpreter/ParserService/ParserControlStatementRelated.cs:66-95 | a for statement takes at least one token |
| Grammar.ForInitSection | Interpreter/ParserService/ParserControlStatementRelated.cs:71-76 | the initialiser section takes at least its `;` |
| Grammar.ForConditionSection | Interpreter/ParserService/ParserControlStatementRelated.cs:78-83 | the condition section takes at least its `;` |
| Grammar.ForStepSection | Interpreter/ParserService/ParserControlStatementRelated.cs:85-90 | the step section takes at least its `)` |
| Grammar.ForInitializationAssignments | Interpreter/ParserService/ParserControlStatementRelated.cs:97-123 | the initialiser loop stays within the stream |
| Grammar.ForInitialization | Interpreter/ParserService/ParserControlStatementRelated.cs:103-114 | one initialiser takes at least one token |
| Grammar.ForContinueStatement | Interpreter/ParserService/ParserControlStatementRelated.cs:125-141 | the step loop stays within the stream |
| Grammar.Expression | Interpreter/ParserService/ParserExpressionRelated.cs:85-88 | an expression takes at least one token |
| Grammar.OrCondition | Interpreter/ParserService/ParserExpressionRelated.cs:90-104 | an or-condition takes at least one token |
| Grammar.OrTail | Interpreter/ParserService/ParserExpressionRelated.cs:94-101 | the logical-or loop stays within the stream |
| Grammar.AndCondition | Interpreter/ParserService/ParserExpressionRelated.cs:106-120 | an and-condition takes at least one token |
| Grammar.AndTail | Interpreter/ParserService/ParserExpressionRelated.cs:110-117 | the `&&` loop stays within the stream |
| Grammar.NotCondition | Interpreter/ParserService/ParserExpressionRelated.cs:122-139 | a not-condition takes at least one token |
| Grammar.Comparision | Interpreter/ParserService/ParserExpressionRelated.cs:141-162 | a comparison takes at least one token |
| Grammar.CompareTail | Interpreter/ParserService/ParserExpressionRelated.cs:153-159 | the comparison loop stays within the stream |
| Grammar.ArithmeticExpression | Interpreter/ParserService/ParserExpressionRelated.cs:11-33 | a sum takes at least one token |
| Grammar.ArithmeticTail | Interpreter/ParserService/ParserExpressionRelated.cs:15-30 | the `+`/`-` loop stays within the stream |
| Grammar.Term | Interpreter/ParserService/ParserExpressionRelated.cs:35-49 | a product takes at least one token |
| Grammar.TermTail | Interpreter/ParserService/ParserExpressionRelated.cs:39-46 | the `*`/`/`/`%` loop stays within the stream |
| Grammar.Factor | Interpreter/ParserService/ParserExpressionRelated.cs:51-83 | a factor takes at least one token |
| GrammarProperties.EatShiftsWindow | Interpreter/ParserService/Parser.cs:293-307 | eating shifts the five-token lookahead window by one: each new window token is the next old one |
| GrammarProperties.ParseConsumesAllTokens | Interpreter/ParserService/Parser.cs:33-42 | a parse succeeds exactly when the one top-level statement ends at the final EOF, and yields that program |
| GrammarProperties.ParseRejectsTrailingTokens | Interpreter/ParserService/Parser.cs:36-39 | a token left after the top-level statement is an `UnexpectedToken` error expecting EOF |
| GrammarProperties.IdentifierStatementForms | Interpreter/ParserService/Parser.cs:78-81 | a statement led by a name is a call exactly when `(` follows the name, an assignment otherwise, and ends with `;` |
| GrammarProperties.IdentifierStatementEndsWithSemicolon | Interpreter/ParserService/Parser.cs:79-80 | a name-led statement is the call or assignment followed by `;` |
| GrammarProperties.CallOrAssignmentShape | Interpreter/ParserService/Parser.cs:79 | the second token decides between a call and an assignment |
| GrammarProperties.TypeLedStatementForms | Interpreter/ParserService/Parser.cs:86-90 | a type-led statement is a function definition exactly when the third token is `(`, or the second is `[` and the fifth `(` |
| GrammarProperties.FunctionDefinitionShape | Interpreter/ParserService/Parser.cs:145-158 | a function definition yields a function-definition node |
| GrammarProperties.DeclarationStatementShape | Interpreter/ParserService/Parser.cs:92-98 | a declaration statement yields declarations, or an assignment to declarations |
| GrammarProperties.VoidVariableRejected | Interpreter/ParserService/Parser.cs:217-220 | declaring a `void` variable is an `IncorrectType` error on the type's token |
| GrammarProperties.DeclarationsShareType | Interpreter/ParserService/Parser.cs:213-241 | `T a, b, c` gives one declaration per name, the first for the name after the type, all sharing the one type node |
| GrammarProperties.VariablesTailExtends | Interpreter/ParserService/Parser.cs:227-231 | the name loop keeps the names already read, in order, as a prefix |
| GrammarProperties.OmittedSliceStart | Interpreter/ParserService/Parser.cs:254-257 | an omitted slice start is the number 0, placed at the `:` |
| GrammarProperties.OmittedSliceEnd | Interpreter/ParserService/Parser.cs:266-269 | an omitted slice end is the largest 32-bit integer, placed at the token that follows the `:` |
| GrammarProperties.PlainVariable | Interpreter/ParserService/Parser.cs:243-285 | without `[` a variable is its name alone, with no slice bounds |
| GrammarProperties.ParametersNeedNumberType | Interpreter/ParserService/Parser.cs:160-182 | parameters are read only when the first token is `number`; otherwise the list is empty and takes no token |
| GrammarProperties.ReturnForms | Interpreter/ParserService/ParserControlStatementRelated.cs:11-19 | `return;` carries no expression and `return e;` carries `e`; both end with `;` |
| GrammarProperties.BreakAndContinueNeedSemicolon | Interpreter/ParserService/ParserControlStatementRelated.cs:21-35 | `break` and `continue` parse exactly when `;` follows the keyword |
| GrammarProperties.WhileNeedsParentheses | Interpreter/ParserService/ParserControlStatementRelated.cs:37-47 | a while statement is the keyword, a parenthesised condition and one statement as its body |
| GrammarProperties.IfElseHasNoElif | Interpreter/ParserService/ParserControlStatementRelated.cs:49-64 | the parser builds no `elif` branches, and an else branch is there exactly when `else` follows the then-branch |
| GrammarProperties.ForSectionsMayBeEmpty | Interpreter/ParserService/ParserControlStatementRelated.cs:66-95 | `for (;;) S` has no initialisers, no condition and no steps |
| GrammarProperties.ForInitializationForms | Interpreter/ParserService/ParserControlStatementRelated.cs:100-114 | an initialiser led by a builtin type assigns to declarations; any other assigns to a variable |
| GrammarProperties.TypeShapes | Interpreter/ParserService/ParserTypeRelated.cs:8-33 | a plain type is one token whatever its kind, an array type is three, and a `[` without `]` is an `UnexpectedToken` error expecting `]` |
| GrammarProperties.FactorRejectsOtherTokens | Interpreter/ParserService/ParserExpressionRelated.cs:79-81 | a factor that starts with anything but a sign, a literal, `(` or a name is an `UnexpectedToken` error |
| GrammarProperties.IdentifierFactorForms | Interpreter/ParserService/ParserExpressionRelated.cs:77-78 | a name in factor position is a call exactly when `(` follows it, and a variable otherwise |
| GrammarProperties.BooleanLiteralComparison | Interpreter/ParserService/ParserExpressionRelated.cs:143-149 | a `true`/`false` literal in comparison position is taken alone, even when a comparison operator follows |
| GrammarProperties.NotConditionForms | Interpreter/ParserService/ParserExpressionRelated.cs:122-139 | `!` applies to the next not-condition, and `(` opens a full condition that `)` must close |
| ArithmeticPrecedence.FactorOfNumber | Interpreter/ParserService/ParserExpressionRelated.cs:63-65 | a number token is a factor on its own |
| ArithmeticPrecedence.FactorOfSign | Interpreter/ParserService/ParserExpressionRelated.cs:57-62 | a sign applies to the factor after it |
| ArithmeticPrecedence.FactorOfParentheses | Interpreter/ParserService/ParserExpressionRelated.cs:72-76 | `( e )` is a factor whose tree is the inner expression's |
| ArithmeticPrecedence.TermOfFactor | Interpreter/ParserService/ParserExpressionRelated.cs:35-38 | a term starts with a factor and continues with the product loop |
| ArithmeticPrecedence.TermTailStep | Interpreter/ParserService/ParserExpressionRelated.cs:39-46 | each round of the product loop folds `node op factor` into the tree built so far, from the left |
| ArithmeticPrecedence.ExpressionOfTerm | Interpreter/ParserService/ParserExpressionRelated.cs:11-14 | a sum starts with a term and continues with the sum loop |
| ArithmeticPrecedence.ArithmeticTailStep | Interpreter/ParserService/ParserExpressionRelated.cs:15-30 | each round of the sum loop folds `node op term` into the tree built so far, from the left |
| ArithmeticPrecedence.TailsStop | Interpreter/ParserService/ParserExpressionRelated.cs:15-39 | each loop stops, taking nothing, at a token that is not one of its operators |
| ArithmeticPrecedence.TermOfNumber | Interpreter/ParserService/ParserExpressionRelated.cs:35-65 | a term that starts with a number continues the product loop after it |
| ArithmeticPrecedence.ExpressionOfNumber | Interpreter/ParserService/ParserExpressionRelated.cs:11-15 | a sum that starts with a number not followed by a product operator continues the sum loop after it |
| ArithmeticPrecedence.TermTakesNumber | Interpreter/ParserService/ParserExpressionRelated.cs:39-46 | the product loop takes `op number` as one round |
| ArithmeticPrecedence.SumTakesNumber | Interpreter/ParserService/ParserExpressionRelated.cs:15-30 | the sum loop takes `op number` as one round when no product follows |
| ArithmeticPrecedence.TermOfProduct | Interpreter/ParserService/ParserExpressionRelated.cs:35-49 | `a * b` is a term grouping both numbers |
| ArithmeticPrecedence.SumTakesProduct | Interpreter/ParserService/ParserExpressionRelated.cs:15-30 | the sum loop takes `+ a * b` as one round whose right operand is the product |
| ArithmeticPrecedence.AdditionAssociatesLeft | Interpreter/ParserService/ParserExpressionRelated.cs:11-33 | `a - b + c` parses as `(a - b) + c` |
| ArithmeticPrecedence.MultiplicationAssociatesLeft | Interpreter/ParserService/ParserExpressionRelated.cs:35-49 | `a / b * c` parses as `(a / b) * c` |
| ArithmeticPrecedence.MultiplicationBindsTighter | Interpreter/ParserService/ParserExpressionRelated.cs:11-49 | `a + b * c` parses as `a + (b * c)` |
| ArithmeticPrecedence.ParenthesisedSum | Interpreter/ParserService/ParserExpressionRelated.cs:72-76 | `(a + b)` is one factor holding the sum |
| ArithmeticPrecedence.ParenthesesRegroup | Interpreter/ParserService/ParserExpressionRelated.cs:11-76 | `(a + b) * c` parses as the product of the sum and `c` |
| ArithmeticPrecedence.SignBindsToFactor | Interpreter/ParserService/ParserExpressionRelated.cs:35-62 | `-a * b` parses as `(-a) * b` |
| ArithmeticPrecedence.SumOfProducts | Interpreter/ParserService/ParserExpressionRelated.cs:11-49 | `a + b * c - d / e` parses as `(a + (b * c)) - (d / e)` and takes nine tokens |
| ParserService.Parser.constructor | Interpreter/ParserService/Parser.cs:23-31 | a new parser's window holds the first five tokens of the stream, at position 0 |
| ParserService.Parser.Eat | Interpreter/ParserService/Parser.cs:293-307 | on the expected kind the window shifts by one and the lexer's next token enters it, as `Grammar.Eat` says; on any other kind it fails with `UnexpectedToken` naming the expected kind and changes nothing |
| ParserService.Parser.Parse | Interpreter/ParserService/Parser.cs:33-42 | the method returns exactly the program or error `Grammar.ParseFrom` gives |
| ParserService.Parser.Program | Interpreter/ParserService/Parser.cs:44-47 | the method returns what `Grammar.Program` yields, or its error, and leaves the window just after what it read |
| ParserService.Parser.Block | Interpreter/ParserService/Parser.cs:49-56 | the method returns what `Grammar.Block` yields, or its error, and leaves the window just after what it read |
| ParserService.Parser.StatementList | Interpreter/ParserService/Parser.cs:58-70 | the method returns what `Grammar.StatementList` yields, or its error, and leaves the window just after what it read |
| ParserService.Parser.Statement | Interpreter/ParserService/Parser.cs:72-114 | the method returns what `Grammar.Statement` yields, or its error, and leaves the window just after what it read |
| ParserService.Parser.IdentifierStatement | Interpreter/ParserService/Parser.cs:78-81 | the method returns what `Grammar.IdentifierStatement` yields, or its error, and leaves the window just after what it read |
| ParserService.Parser.CallOrAssignment | Interpreter/ParserService/Parser.cs:79 | the method returns what `Grammar.CallOrAssignment` yields, or its error, and leaves the window just after what it read |
| ParserService.Parser.TypeLedStatement | Interpreter/ParserService/Parser.cs:82-98 | the method returns what `Grammar.TypeLedStatement` yields, or its error, and leaves the window just after what it read |
| ParserService.Parser.DeclarationStatement | Interpreter/ParserService/Parser.cs:92-98 | the method returns what `Grammar.DeclarationStatement` yields, or its error, and leaves the window just after what it read |
| ParserService.Parser.AssignmentStatement | Interpreter/ParserService/Parser.cs:116-122 | the method returns what `Grammar.AssignmentStatement` yields, or its error, and leaves the window just after what it read |
| ParserService.Parser.ArrayInitialization | Interpreter/ParserService/Parser.cs:124-143 | the method returns what `Grammar.ArrayInitialization` yields, or its error, and leaves the window just after what it read |
| ParserService.Parser.FunctionDefinition | Interpreter/ParserService/Parser.cs:145-158 | the method returns what `Grammar.FunctionDefinition` yields, or its error, and leaves the window just after what it read |
| ParserService.Parser.ParameterList | Interpreter/ParserService/Parser.cs:160-182 | the method returns what `Grammar.ParameterList` yields, or its error, and leaves the window just after what it read |
| ParserService.Parser.FunctionCall | Interpreter/ParserService/Parser.cs:184-211 | the method returns what `Grammar.FunctionCall` yields, or its error, and leaves the window just after what it read |
| ParserService.Parser.CallArguments | Interpreter/ParserService/Parser.cs:195-206 | the method returns what `Grammar.CallArguments` yields, or its error, and leaves the window just after what it read |
| ParserService.Parser.VariablesDeclarations | Interpreter/ParserService/Parser.cs:213-241 | the method returns what `Grammar.VariablesDeclarations` yields, or its error, and leaves the window just after what it read |
| ParserService.Parser.DeclarationsOf | Interpreter/ParserService/Parser.cs:233-240 | the loop builds the declarations `Grammar.MakeDecls` gives |
| ParserService.Parser.Variable | Interpreter/ParserService/Parser.cs:243-286 | the method returns what `Grammar.Variable` yields, or its error, and leaves the window just after what it read |
| ParserService.Parser.Slice | Interpreter/ParserService/Parser.cs:251-283 | the method returns what `Grammar.Slice` yields, or its error, and leaves the window just after what it read |
| ParserService.Parser.SliceFrom | Interpreter/ParserService/Parser.cs:254-261 | the method returns what `Grammar.SliceFrom` yields, or its error, and leaves the window just after what it read |
| ParserService.Parser.SliceTo | Interpreter/ParserService/Parser.cs:263-274 | the method returns what `Grammar.SliceTo` yields, or its error, and leaves the window just after what it read |
| ParserService.Parser.SliceStep | Interpreter/ParserService/Parser.cs:276-280 | the method returns what `Grammar.SliceStep` yields, or its error, and leaves the window just after what it read |
| ParserService.Parser.ReturnStatement | Interpreter/ParserService/ParserControlStatementRelated.cs:11-19 | the method returns what `Grammar.ReturnStatement` yields, or its error, and leaves the window just after what it read |
| ParserService.Parser.BreakStatement | Interpreter/ParserService/ParserControlStatementRelated.cs:21-27 | the method returns what `Grammar.BreakStatement` yields, or its error, and leaves the window just after what it read |
| ParserService.Parser.ContinueStatement | Interpreter/ParserService/ParserControlStatementRelated.cs:29-35 | the method returns what `Grammar.ContinueStatement` yields, or its error, and leaves the window just after what it read |
| ParserService.Parser.WhileStatement | Interpreter/ParserService/ParserControlStatementRelated.cs:37-47 | the method returns what `Grammar.WhileStatement` yields, or its error, and leaves the window just after what it read |
| ParserService.Parser.IfElseStatement | Interpreter/ParserService/ParserControlStatementRelated.cs:49-64 | the method returns what `Grammar.IfElseStatement` yields, or its error, and leaves the window just after what it read |
| ParserService.Parser.ForStatement | Interpreter/ParserService/ParserControlStatementRelated.cs:66-95 | the method returns what `Grammar.ForStatement` yields, or its error, and leaves the window just after what it read |
| ParserService.Parser.ForInitSection | Interpreter/ParserService/ParserControlStatementRelated.cs:71-76 | the method returns what `Grammar.ForInitSection` yields, or its error, and leaves the window just after what it read |
| ParserService.Parser.ForConditionSection | Interpreter/ParserService/ParserControlStatementRelated.cs:78-83 | the method returns what `Grammar.ForConditionSection` yields, or its error, and leaves the window just after what it read |
| ParserService.Parser.ForStepSection | Interpreter/ParserService/ParserControlStatementRelated.cs:85-90 | the method returns what `Grammar.ForStepSection` yields, or its error, and leaves the window just after what it read |
| ParserService.Parser.ForInitializationAssignments | Interpreter/ParserService/ParserControlStatementRelated.cs:97-123 | the method returns what `Grammar.ForInitializationAssignments` yields, or its error, and leaves the window just after what it read |
| ParserService.Parser.ForContinueStatement | Interpreter/ParserService/ParserControlStatementRelated.cs:125-141 | the method returns what `Grammar.ForContinueStatement` yields, or its error, and leaves the window just after what it read |
| ParserService.Parser.Expression | Interpreter/ParserService/ParserExpressionRelated.cs:85-88 | the method returns what `Grammar.Expression` yields, or its error, and leaves the window just after what it read |
| ParserService.Parser.OrCondition | Interpreter/ParserService/ParserExpressionRelated.cs:90-104 | the method returns what `Grammar.OrCondition` yields, or its error, and leaves the window just after what it read |
| ParserService.Parser.AndCondition | Interpreter/ParserService/ParserExpressionRelated.cs:106-120 | the method returns what `Grammar.AndCondition` yields, or its error, and leaves the window just after what it read |
| ParserService.Parser.NotCondition | Interpreter/ParserService/ParserExpressionRelated.cs:122-139 | the method returns what `Grammar.NotCondition` yields, or its error, and leaves the window just after what it read |
| ParserService.Parser.Comparision | Interpreter/ParserService/ParserExpressionRelated.cs:141-162 | the method returns what `Grammar.Comparision` yields, or its error, and leaves the window just after what it read |
| ParserService.Parser.ArithmeticExpression | Interpreter/ParserService/ParserExpressionRelated.cs:11-33 | the method returns what `Grammar.ArithmeticExpression` yields, or its error, and leaves the window just after what it read |
| ParserService.Parser.Term | Interpreter/ParserService/ParserExpressionRelated.cs:35-49 | the method returns what `Grammar.Term` yields, or its error, and leaves the window just after what it read |
| ParserService.Parser.Factor | Interpreter/ParserService/ParserExpressionRelated.cs:51-83 | the method returns what `Grammar.Factor` yields, or its error, and leaves the window just after what it read |
| ParserService.Parser.Type | Interpreter/ParserService/ParserTypeRelated.cs:8-18 | the method returns what `Grammar.Type` yields, or its error, and leaves the window just after what it read |
| ParserService.Parser.NonArrayType | Interpreter/ParserService/ParserTypeRelated.cs:20-25 | the method returns what `Grammar.NonArrayType` yields, or its error, and leaves the window just after what it read |
| ParserService.Parser.ArrayType | Interpreter/ParserService/ParserTypeRelated.cs:27-33 | the method returns what `Grammar.ArrayType` yields, or its error, and leaves the window just after what it read |
| SymbolTables.FirstNamed | Interpreter/AnalyzerService/ScopedSymbolTable.cs:60 | the first symbol of the scope with the name, if any, is a member of the scope and has that name |
| SymbolTables.FirstNamedIsFirst | Interpreter/AnalyzerService/ScopedSymbolTable.cs:60 | the lookup in one scope finds nothing exactly when no symbol has the name, and otherwise finds the earliest symbol with it |
| SymbolTables.AllNamed | Interpreter/AnalyzerService/ScopedSymbolTable.cs:77 | the symbols with the name are exactly the scope's symbols with that name |
| SymbolTables.AllNamedEmpty | Interpreter/AnalyzerService/ScopedSymbolTable.cs:77-79 | the many-symbol lookup in one scope is empty exactly when no symbol has the name |
| SymbolTables.LookupsUseInnermostScope | Interpreter/AnalyzerService/ScopedSymbolTable.cs:57-89 | when scope k is the innermost holding the name, both lookups answer from scope k alone and find something |
| SymbolTables.LookupsMissUnknownName | Interpreter/AnalyzerService/ScopedSymbolTable.cs:57-89 | a name no scope of the chain holds is not found by either lookup (null, and an empty list) |
| SymbolTables.OnlyCurrentScope | Interpreter/AnalyzerService/ScopedSymbolTable.cs:66-83 | with `onlyCurrentScope` both lookups look in the current scope alone |
| SymbolTables.BuiltinFound | Interpreter/AnalyzerService/ScopedSymbolTable.cs:13-60 | each of `void`, `number`, `bool` and `string` is found as its builtin type symbol |
| SymbolTables.ArrayFound | Interpreter/AnalyzerService/ScopedSymbolTable.cs:111-122 | `number_array`, `bool_array` and `string_array` are found as the array type symbols defined at the table's level |
| SymbolTables.FirstNamedAt | Interpreter/AnalyzerService/ScopedSymbolTable.cs:60 | the lookup in one scope finds the symbol at the first index holding the name |
| SymbolTables.SeededContents | Interpreter/AnalyzerService/ScopedSymbolTable.cs:13-122 | a new table holds 13 symbols: the four builtin types, the three array types and the six `print` overloads, which the many-symbol lookup returns in definition order |
| SymbolTables.NoPrintBeforeOverloads | Interpreter/AnalyzerService/ScopedSymbolTable.cs:13-116 | no type symbol is named `print` |
| SymbolTables.OverloadsAllPrint | Interpreter/AnalyzerService/ScopedSymbolTable.cs:91-109 | every seeded overload is named `print` |
| SymbolTables.PrintLookups | Interpreter/AnalyzerService/ScopedSymbolTable.cs:101-109 | each overload definition looks `void` and its parameter type up among the symbols defined before it and finds them |
| SymbolTables.AllNamedConcat | Interpreter/AnalyzerService/ScopedSymbolTable.cs:77 | the symbols with a name in two lists are those of the first followed by those of the second |
| SymbolTables.AllNamedNone | Interpreter/AnalyzerService/ScopedSymbolTable.cs:77 | a list with no symbol of the name gives no match |
| SymbolTables.AllNamedAll | Interpreter/AnalyzerService/ScopedSymbolTable.cs:77 | a list whose symbols all have the name is its own match |
| SymbolTables.ScopedSymbolTable.Model | Interpreter/AnalyzerService/ScopedSymbolTable.cs:21-35 | a table's chain of scopes is its own scope followed by the enclosing table's chain |
| SymbolTables.ScopedSymbolTable.constructor | Interpreter/AnalyzerService/ScopedSymbolTable.cs:21-29 | a new table has the given name, level and enclosing table, and holds the 13 seeded symbols; its chain is its scope in front of the enclosing chain |
| SymbolTables.ScopedSymbolTable.SeedArrayTypes | Interpreter/AnalyzerService/ScopedSymbolTable.cs:111-116 | seeding appends the three array types to the builtin types |
| SymbolTables.ScopedSymbolTable.ArrayStep | Interpreter/AnalyzerService/ScopedSymbolTable.cs:118-122 | one array-type definition appends that array type |
| SymbolTables.ScopedSymbolTable.SeedPrintFunctions | Interpreter/AnalyzerService/ScopedSymbolTable.cs:91-99 | seeding appends the six `print` overloads, leaving the table with `Seeded` |
| SymbolTables.ScopedSymbolTable.PrintStep | Interpreter/AnalyzerService/ScopedSymbolTable.cs:101-109 | one overload definition appends that overload |
| SymbolTables.ScopedSymbolTable.Define | Interpreter/AnalyzerService/ScopedSymbolTable.cs:49-55 | `Define` appends the symbol stamped with the table's level |
| SymbolTables.ScopedSymbolTable.UpdateSymbol | Interpreter/AnalyzerService/SemanticAnalyzer.cs:326 | replacing the function symbol of a definition changes that entry only |
| SymbolTables.ScopedSymbolTable.LookupSingle | Interpreter/AnalyzerService/ScopedSymbolTable.cs:57-72 | the recursive lookup agrees with the lookup over the chain of scopes, and a name in the current scope is found there |
| SymbolTables.ScopedSymbolTable.LookupMany | Interpreter/AnalyzerService/ScopedSymbolTable.cs:74-89 | the recursive lookup agrees with the lookup over the chain of scopes |
| SymbolTables.ScopedSymbolTable.DefineArrayType | Interpreter/AnalyzerService/ScopedSymbolTable.cs:118-122 | appends `<type>_array` whose element type is the type name's lookup, at the table's level |
| SymbolTables.ScopedSymbolTable.DefinePrintFunctionGroup | Interpreter/AnalyzerService/ScopedSymbolTable.cs:101-109 | appends a builtin `print` returning `void` with one formal `str` of the looked-up parameter type, not stamped with a level |
| SymbolTables.RedefinitionIsShadowedByFirst | Interpreter/AnalyzerService/ScopedSymbolTable.cs:54-60 | a second symbol of the same name in a scope is never found: the lookup returns the first |
| SymbolTables.FirstNamedPrefix | Interpreter/AnalyzerService/ScopedSymbolTable.cs:60 | symbols appended after a match do not change what the lookup finds |
| Analysis.Define | Interpreter/AnalyzerService/ScopedSymbolTable.cs:49-55 | defining a symbol appends it, stamped with the current scope's level, to the current scope and leaves every enclosing scope as it was |
| Analysis.Enter | Interpreter/AnalyzerService/SemanticAnalyzerControlStatementRelated.cs:37-39 | entering a scope pushes one new scope in front of the unchanged chain |
| Analysis.ExtendsTransitive | Interpreter/AnalyzerService/SemanticAnalyzerControlStatementRelated.cs:37-45 | the relation "the later analysis state only added symbols to the same chain" composes across consecutive visits |
| Analysis.RemoveAll | Interpreter/AnalyzerService/SemanticAnalyzer.cs:245 | removing the array suffix never lengthens a type name |
| Analysis.Visit | Interpreter/AnalyzerService/SemanticAnalyzer.cs:30-81 | a successful visit of any node leaves the scope chain as deep as it found it |
| Analysis.VisitVariable | Interpreter/AnalyzerService/SemanticAnalyzer.cs:282-292 | a variable that resolves changes neither the analysis state nor the node |
| Analysis.VisitCompound | Interpreter/AnalyzerService/SemanticAnalyzer.cs:127-148 | a successful compound visit keeps the chain's depth |
| Analysis.VisitChildren | Interpreter/AnalyzerService/SemanticAnalyzer.cs:131-145 | visiting the children in order keeps the chain's depth |
| Analysis.VisitBinaryOperator | Interpreter/AnalyzerService/SemanticAnalyzer.cs:150-166 | a successful operator visit keeps the chain's depth |
| Analysis.VisitVariableDeclaration | Interpreter/AnalyzerService/SemanticAnalyzer.cs:192-213 | a successful declaration keeps the chain's depth |
| Analysis.VisitVariablesDeclarations | Interpreter/AnalyzerService/SemanticAnalyzer.cs:173-190 | a successful declaration list keeps the chain's depth |
| Analysis.VisitDeclarations | Interpreter/AnalyzerService/SemanticAnalyzer.cs:177-187 | declaring the variables one by one keeps the chain's depth |
| Analysis.VisitArrayInitialization | Interpreter/AnalyzerService/SemanticAnalyzer.cs:215-236 | a successful array initialisation keeps the chain's depth |
| Analysis.VisitItems | Interpreter/AnalyzerService/SemanticAnalyzer.cs:219-233 | visiting the initialiser items in order keeps the chain's depth |
| Analysis.VisitIndexExpression | Interpreter/AnalyzerService/SemanticAnalyzer.cs:238-254 | a successful index expression keeps the chain's depth |
| Analysis.VisitAssign | Interpreter/AnalyzerService/SemanticAnalyzer.cs:256-280 | a successful assignment keeps the chain's depth |
| Analysis.VisitParameter | Interpreter/AnalyzerService/SemanticAnalyzer.cs:314-327 | a parameter is defined in the function's own scope only: the enclosing scopes are untouched |
| Analysis.VisitParameters | Interpreter/AnalyzerService/SemanticAnalyzer.cs:314-327 | the parameters are defined in the function's own scope only: the enclosing scopes are untouched |
| Analysis.UpdateSymbol | Interpreter/AnalyzerService/SemanticAnalyzer.cs:326 | replacing the function symbol in place keeps the chain's depth and the identity counter |
| Analysis.OpenFunctionScope | Interpreter/AnalyzerService/SemanticAnalyzer.cs:294-312 | opening a function definition pushes exactly one scope, the function's own |
| Analysis.VisitFunctionDefinition | Interpreter/AnalyzerService/SemanticAnalyzer.cs:294-348 | a successful function definition closes the scope it opened, so the chain keeps its depth |
| Analysis.VisitFunctionCall | Interpreter/AnalyzerService/SemanticAnalyzer.cs:350-381 | a successful call keeps the chain's depth; what it accepts and rejects is stated by `AnalysisProperties.CallRules` and `AnalysisProperties.CallArgumentRules` |
| Analysis.VisitArguments | Interpreter/AnalyzerService/SemanticAnalyzer.cs:367-376 | checking the arguments against the parameters in order keeps the chain's depth; its per-argument typing is stated by `AnalysisProperties.ArgumentsTypedRules` and `AnalysisProperties.FirstMismatch` |
| Analysis.VisitScoped | Interpreter/AnalyzerService/SemanticAnalyzerControlStatementRelated.cs:120-129 | a body visited in a nested scope leaves the chain as deep as before, the nested scope being dropped |
| Analysis.VisitIfElse | Interpreter/AnalyzerService/SemanticAnalyzerControlStatementRelated.cs:29-88 | a successful if-else keeps the chain's depth: each branch scope is closed again |
| Analysis.VisitElif | Interpreter/AnalyzerService/SemanticAnalyzerControlStatementRelated.cs:90-110 | a successful elif closes the scope it opened |
| Analysis.VisitElifs | Interpreter/AnalyzerService/SemanticAnalyzerControlStatementRelated.cs:48-61 | visiting the elif branches in order keeps the chain's depth |
| Analysis.VisitWhile | Interpreter/AnalyzerService/SemanticAnalyzerControlStatementRelated.cs:112-132 | a successful while loop closes its scope |
| Analysis.VisitFor | Interpreter/AnalyzerService/SemanticAnalyzerControlStatementRelated.cs:134-163 | a successful for loop closes its scope |
| Analysis.VisitOptional | Interpreter/AnalyzerService/SemanticAnalyzerControlStatementRelated.cs:145-148 | the optional for-loop condition, when present, is visited without changing the chain's depth |
| Analysis.VisitAll | Interpreter/AnalyzerService/SemanticAnalyzerControlStatementRelated.cs:140-153 | visiting the for loop's assignments and steps in order keeps the chain's depth |
| AnalysisFrames.ExtendsReflexive | Interpreter/AnalyzerService/ScopedSymbolTable.cs:49-55 | a state extends itself |
| AnalysisFrames.ScopedRestores | Interpreter/AnalyzerService/SemanticAnalyzerControlStatementRelated.cs:37-46 | after a visit in a nested scope the chain is exactly the one before it (whatever the body declared is dropped with the nested scope); only the function-identity counter may have grown |
| AnalysisFrames.VisitExtends | Interpreter/AnalyzerService/SemanticAnalyzer.cs:30-81 | every successful visit keeps the chain's depth, the enclosing scopes and the current scope's name and level, only appends symbols to the current scope, and never decreases the function-identity counter |
| AnalysisFrames.CompoundExtends | Interpreter/AnalyzerService/SemanticAnalyzer.cs:127-148 | a compound only adds symbols to the chain it found |
| AnalysisFrames.ChildrenExtends | Interpreter/AnalyzerService/SemanticAnalyzer.cs:131-145 | visiting the children in order only adds symbols |
| AnalysisFrames.BinaryOperatorExtends | Interpreter/AnalyzerService/SemanticAnalyzer.cs:150-166 | an operator visit only adds symbols |
| AnalysisFrames.DeclarationsExtends | Interpreter/AnalyzerService/SemanticAnalyzer.cs:173-213 | a declaration list only adds symbols |
| AnalysisFrames.ItemsExtends | Interpreter/AnalyzerService/SemanticAnalyzer.cs:219-233 | the initialiser items only add symbols |
| AnalysisFrames.IndexExtends | Interpreter/AnalyzerService/SemanticAnalyzer.cs:238-254 | an index expression only adds symbols |
| AnalysisFrames.AssignExtends | Interpreter/AnalyzerService/SemanticAnalyzer.cs:256-280 | an assignment only adds symbols |
| AnalysisFrames.CallExtends | Interpreter/AnalyzerService/SemanticAnalyzer.cs:350-381 | a call only adds symbols |
| AnalysisFrames.ArgumentsExtends | Interpreter/AnalyzerService/SemanticAnalyzer.cs:367-376 | the arguments only add symbols |
| AnalysisFrames.ParametersExtend | Interpreter/AnalyzerService/SemanticAnalyzer.cs:314-327 | the parameter symbols are appended, in order, to the function scope's symbols, and no identity is used up |
| AnalysisFrames.ParameterNames | Interpreter/AnalyzerService/SemanticAnalyzer.cs:314-327 | there is one parameter symbol per declared parameter, named after it, in order |
| AnalysisFrames.OpenFunctionScopeShape | Interpreter/AnalyzerService/SemanticAnalyzer.cs:294-327 | after the parameters are defined, the function scope sits one level below the enclosing scope and holds the builtins and the parameters, and the enclosing scope has gained the function symbol |
| AnalysisFrames.FunctionSymbolShape | Interpreter/AnalyzerService/SemanticAnalyzer.cs:296-327 | the function symbol is named after the function, carries the looked-up return type, a fresh identity, the enclosing level and one parameter per declared parameter |
| AnalysisFrames.FunctionDefinitionExtends | Interpreter/AnalyzerService/SemanticAnalyzer.cs:294-348 | a function definition only adds symbols to the enclosing chain |
| AnalysisFrames.IfElseExtends | Interpreter/AnalyzerService/SemanticAnalyzerControlStatementRelated.cs:29-88 | an if-else only adds symbols to the chain it found |
| AnalysisFrames.ElifExtends | Interpreter/AnalyzerService/SemanticAnalyzerControlStatementRelated.cs:90-110 | an elif only adds symbols |
| AnalysisFrames.ElifsExtend | Interpreter/AnalyzerService/SemanticAnalyzerControlStatementRelated.cs:48-61 | the elif branches only add symbols |
| AnalysisFrames.WhileExtends | Interpreter/AnalyzerService/SemanticAnalyzerControlStatementRelated.cs:112-132 | a while loop only adds symbols |
| AnalysisFrames.ForExtends | Interpreter/AnalyzerService/SemanticAnalyzerControlStatementRelated.cs:134-163 | a for loop only adds symbols |
| AnalysisFrames.AllExtend | Interpreter/AnalyzerService/SemanticAnalyzerControlStatementRelated.cs:140-153 | the for loop's assignments and steps only add symbols |
| AnalysisProperties.DeclarationRules | Interpreter/AnalyzerService/SemanticAnalyzer.cs:192-213 | a name already in the current scope is a duplicate identifier; otherwise the declaration succeeds with the declared type, leaves the enclosing scopes alone, and afterwards the name resolves to the new variable at the current level |
| AnalysisProperties.UnknownVariableRejected | Interpreter/AnalyzerService/SemanticAnalyzer.cs:282-292 | a variable no scope of the chain defines is reported as identifier-not-found at its token |
| AnalysisProperties.VariableResolvesInnermost | Interpreter/AnalyzerService/SemanticAnalyzer.cs:282-292 | a variable takes the type of the first symbol with its name in the innermost scope that has one, and the visit changes nothing |
| AnalysisProperties.BinaryOperatorRules | Interpreter/AnalyzerService/SemanticAnalyzer.cs:150-166 | operands of equal types give the left type, or bool for a comparison or logical operator; operands of different class or name are incompatible at the operator |
| AnalysisProperties.InitialLookups | Interpreter/AnalyzerService/ScopedSymbolTable.cs:13-29 | in the initial global scope every builtin type name resolves to its builtin type symbol |
| AnalysisProperties.ComparisonType | Interpreter/AnalyzerService/SemanticAnalyzer.cs:155-163 | a comparison of two numbers is typed with a fresh plain bool symbol |
| AnalysisProperties.ComparisonIsNotBuiltinBool | Interpreter/AnalyzerService/SemanticAnalyzer.cs:155-163 | a bool literal combined with a comparison is rejected as incompatible, because the comparison's bool is not the builtin one |
| AnalysisProperties.ComparisonsCombine | Interpreter/AnalyzerService/SemanticAnalyzer.cs:155-163 | two comparisons combined with a logical and are accepted and typed bool |
| AnalysisProperties.ItemMergeRules | Interpreter/AnalyzerService/SemanticAnalyzer.cs:219-233 | an array item type is accepted exactly when it is the first or equals the running type; a missing item type is a null dereference, a different one is incompatible at the initialiser |
| AnalysisProperties.ItemsShareType | Interpreter/AnalyzerService/SemanticAnalyzer.cs:219-233 | the later items are accepted exactly when each has the first item's type, and the running type then stays the first item's |
| AnalysisProperties.ArrayInitialisationRules | Interpreter/AnalyzerService/SemanticAnalyzer.cs:215-236 | an empty initialiser dereferences null; otherwise it succeeds exactly when all items share the first item's type, and its type is that type's name with the array suffix |
| AnalysisProperties.RemoveAllStripsSuffix | Interpreter/AnalyzerService/SemanticAnalyzer.cs:245 | removing the suffix from a name that ends in it, and cannot contain it elsewhere, gives back the name |
| AnalysisProperties.ElementTypeNames | Interpreter/AnalyzerService/SemanticAnalyzer.cs:245 | for every scalar type, stripping the array suffix from its array type's name gives the scalar name back |
| AnalysisProperties.IndexTypingRules | Interpreter/AnalyzerService/SemanticAnalyzer.cs:238-254 | an index must be a number (a missing type dereferences null, another type is incompatible); then the element type is the array type's name without the array suffix, looked up in the chain |
| AnalysisProperties.IndexOfBuiltinArray | Interpreter/AnalyzerService/SemanticAnalyzer.cs:238-254 | indexing a builtin array type with a number yields the scalar type it holds |
| AnalysisProperties.CompoundMergeRules | Interpreter/AnalyzerService/SemanticAnalyzer.cs:131-145 | a child's type is accepted exactly when it is the first or has the running type's name; a missing type is a null dereference, a different name is incompatible at the child |
| AnalysisProperties.ChildrenKeepType | Interpreter/AnalyzerService/SemanticAnalyzer.cs:131-145 | the later children are accepted exactly when each has the first typed child's type name, and the block keeps that type |
| AnalysisProperties.CompoundRules | Interpreter/AnalyzerService/SemanticAnalyzer.cs:127-148 | an empty block has no type and changes nothing; otherwise it succeeds exactly when every child has the first child's type name, and its type is the first child's |
| AnalysisProperties.ReturnTypes | Interpreter/AnalyzerService/SemanticAnalyzerControlStatementRelated.cs:9-17 | a bare return has type void, a return with a value has the value's type, and an error in the value is the return's error |
| AnalysisProperties.JumpsHaveNoType | Interpreter/AnalyzerService/SemanticAnalyzerControlStatementRelated.cs:19-27 | break and continue are accepted, have no type and change nothing |
| AnalysisProperties.NotSeeded | Interpreter/AnalyzerService/ScopedSymbolTable.cs:91-122 | a name that is neither a builtin type, a builtin array type nor print is not in a freshly seeded scope |
| AnalysisProperties.NameAbsent | Interpreter/AnalyzerService/ScopedSymbolTable.cs:57-72 | a name absent from the builtins and from every parameter is absent from the function scope |
| AnalysisProperties.FoundInEnclosing | Interpreter/AnalyzerService/ScopedSymbolTable.cs:57-72 | a name absent from the innermost scope and defined last in the enclosing scope resolves to that definition |
| AnalysisProperties.VisibleInFunctionScopes | Interpreter/AnalyzerService/SemanticAnalyzer.cs:294-327 | inside a new function's scope its own name resolves to its function symbol when no parameter or builtin shadows it |
| AnalysisProperties.FunctionVisibleInItsBody | Interpreter/AnalyzerService/SemanticAnalyzer.cs:294-340 | a function can call itself recursively: its body is analysed in a chain where its name resolves to its own symbol, with one parameter per declared parameter |
| AnalysisProperties.FunctionDefinitionRules | Interpreter/AnalyzerService/SemanticAnalyzer.cs:294-348 | a name already in the current scope is a duplicate identifier; on success the enclosing chain has gained exactly the function symbol, which its name resolves to in the current scope, and the analysed body is stored under the symbol's identity |
| AnalysisProperties.CallRules | Interpreter/AnalyzerService/SemanticAnalyzer.cs:350-381 | an unknown name is identifier-not-found, a wrong argument count (print aside) is wrong-param-number, and a successful call is of a function with matching arity whose return type it takes, the call node recording the resolved symbol |
| AnalysisProperties.ArgumentsCoverFormals | Interpreter/AnalyzerService/SemanticAnalyzer.cs:367-376 | fewer arguments than parameters fail; on success every argument is kept, the ones past the parameters unvisited |
| AnalysisProperties.PrintResolvesToNumberOverload | Interpreter/AnalyzerService/ScopedSymbolTable.cs:101-109 | whatever follows the builtins, the first print in a seeded scope is the overload taking a number |
| AnalysisProperties.ArgumentsTypedRules | Interpreter/AnalyzerService/SemanticAnalyzer.cs:367-376 | the argument loop succeeds exactly when each of the formals' arguments, visited in turn, has a type named as its formal's type; it then yields those visited nodes followed by the arguments past the formals |
| AnalysisProperties.StateAfter | Interpreter/AnalyzerService/SemanticAnalyzer.cs:367-376 | visiting the typed arguments keeps the chain's depth |
| AnalysisProperties.NodesAfter | Interpreter/AnalyzerService/SemanticAnalyzer.cs:367-376 | the typed arguments yield one visited node each |
| AnalysisProperties.ArgumentsSplit | Interpreter/AnalyzerService/SemanticAnalyzer.cs:367-376 | after a typed prefix the loop fails exactly when it fails on the rest, with the same error |
| AnalysisProperties.FirstMismatch | Interpreter/AnalyzerService/SemanticAnalyzer.cs:367-376 | at the first argument, at any position, not typed as its formal, the loop fails with that argument's own error, a null dereference on a missing type, `Incompatible` at that argument's token on a name mismatch, or an index out of range when the arguments ran out |
| AnalysisProperties.CallArgumentRules | Interpreter/AnalyzerService/SemanticAnalyzer.cs:350-381 | a call past the name and count checks is accepted exactly when every formal's argument is typed as its formal, fails with the argument loop's error otherwise, and on success carries the visited arguments and the return type |
| AnalysisProperties.OneFormal | Interpreter/AnalyzerService/SemanticAnalyzer.cs:367-376 | an argument is accepted exactly when its type name is the parameter's, and otherwise is incompatible at the argument |
| AnalysisProperties.InitialPrintSeeded | Interpreter/AnalyzerService/ScopedSymbolTable.cs:21-29 | the initial global scope holds the builtins, with print resolving to its number overload |
| AnalysisProperties.PrintRejectsNonNumbers | Interpreter/AnalyzerService/SemanticAnalyzer.cs:367-376 | print of a string literal or a bool literal is rejected as incompatible at the argument |
| AnalysisProperties.PrintAcceptsNumber | Interpreter/AnalyzerService/SemanticAnalyzer.cs:350-381 | print of a number, with or without a further argument, is accepted with type void |
| AnalysisProperties.PrintWithoutArguments | Interpreter/AnalyzerService/SemanticAnalyzer.cs:367-370 | print with no argument reads past the end of the argument list (an index-out-of-range fault of the host) |
| AnalysisProperties.ConditionMustBeBool | Interpreter/AnalyzerService/SemanticAnalyzerControlStatementRelated.cs:29-35 | an if or while condition whose type is not named bool is incompatible at the statement, and a missing type dereferences null |
| AnalysisProperties.ElifConditionMustBeBool | Interpreter/AnalyzerService/SemanticAnalyzerControlStatementRelated.cs:90-96 | an elif condition whose type is not named bool is incompatible at the elif, and a missing type dereferences null |
| AnalysisProperties.ForConditionNotChecked | Interpreter/AnalyzerService/SemanticAnalyzerControlStatementRelated.cs:134-163 | a for loop is accepted whatever its condition's type, once its parts are, and takes its body's type |
| AnalysisProperties.BranchMergeRules | Interpreter/AnalyzerService/SemanticAnalyzerControlStatementRelated.cs:52-79 | a branch type is accepted exactly when it is the first or equals the running type; a missing one is a null dereference |
| AnalysisProperties.ElifsKeepType | Interpreter/AnalyzerService/SemanticAnalyzerControlStatementRelated.cs:48-61 | once the if branch has a type, a successful run of elif branches keeps it |
| AnalysisProperties.AnyHasReturnAt | Interpreter/AnalyzerService/SemanticAnalyzer.cs:505-528 | a block with a child that holds a return holds a return |
| AnalysisProperties.ReachedReturnIsFound | Interpreter/AnalyzerService/SemanticAnalyzer.cs:505-528 | a return reachable along a path of block children and if branches is found by the return search |
| AnalysisProperties.FoundReturnIsReached | Interpreter/AnalyzerService/SemanticAnalyzer.cs:505-528 | whenever the return search succeeds there is a path of block children and if branches leading to a return |
| AnalysisProperties.FoundInChildren | Interpreter/AnalyzerService/SemanticAnalyzer.cs:505-528 | a block in which the search finds a return has a child with a path to one |
| AnalysisProperties.HasReturnIffReachable | Interpreter/AnalyzerService/SemanticAnalyzer.cs:505-528 | the return search succeeds exactly when a return is reachable along block children and if branches |
| AnalysisProperties.ReturnCheckRules | Interpreter/AnalyzerService/SemanticAnalyzer.cs:329-338 | a function passes the return check exactly when it is void, or its body's type has the return type's name and its body holds a return; otherwise a matching body without a return is a missing-return-statement error |
| AnalysisProperties.ProgramNeedsMain | Interpreter/AnalyzerService/SemanticAnalyzer.cs:103-125 | an error in the program is the analysis' error; a program without Main is a missing-main error at the program; otherwise the analysed program records its Main function symbol and the function bodies |
| Analyzer.SemanticAnalyzer.GlobalState | Interpreter/AnalyzerService/SemanticAnalyzer.cs:17 | the analyzer's global scope, read as a chain, is a single scope |
| Analyzer.SemanticAnalyzer.constructor | Interpreter/AnalyzerService/SemanticAnalyzer.cs:17-18 | a new analyzer owns a fresh global scope with no enclosing scope, in the initial state with the builtins defined |
| Analyzer.SemanticAnalyzer.EnterScope | Interpreter/AnalyzerService/SemanticAnalyzerControlStatementRelated.cs:37-39 | entering makes a fresh scope, enclosed by the old current one, the current scope, as `Analysis.Enter` says |
| Analyzer.SemanticAnalyzer.LeaveScope | Interpreter/AnalyzerService/SemanticAnalyzerControlStatementRelated.cs:45 | leaving makes the enclosing scope current again, as `Analysis.Leave` says |
| Analyzer.SemanticAnalyzer.DefineSymbol | Interpreter/AnalyzerService/ScopedSymbolTable.cs:49-55 | defining mutates the current scope object exactly as `Analysis.Define` says |
| Analyzer.SemanticAnalyzer.AttachBody | Interpreter/AnalyzerService/SemanticAnalyzer.cs:340 | the analysed body is recorded for the function's identity, nothing else changes |
| Analyzer.SemanticAnalyzer.UpdateEnclosingSymbol | Interpreter/AnalyzerService/SemanticAnalyzer.cs:326 | the function symbol in the enclosing scope is replaced in place, as `Analysis.UpdateSymbol` says |
| Analyzer.SemanticAnalyzer.Analyze | Interpreter/AnalyzerService/SemanticAnalyzer.cs:25-28 | analysing a program from the global scope returns exactly what `Analysis.AnalyzeProgram` gives; when the root's visit succeeds the global table holds that visit's state, and after a successful analysis no table is current |
| Analyzer.SemanticAnalyzer.Visit | Interpreter/AnalyzerService/SemanticAnalyzer.cs:30-81 | the dispatcher returns the type and annotated node that `Analysis.Visit` says, its scope objects read as a chain end as that function's state, and on success its current scope is the one it started in |
| Analyzer.SemanticAnalyzer.VisitExpression | Interpreter/AnalyzerService/SemanticAnalyzer.cs:83-101 | literals, variables and operators: returns the type and annotated node that `Analysis.Visit` says, its scope objects read as a chain end as that function's state, and on success its current scope is the one it started in |
| Analyzer.SemanticAnalyzer.VisitStatement | Interpreter/AnalyzerService/SemanticAnalyzer.cs:30-81 | declarations, assignments, definitions and calls: returns the type and annotated node that `Analysis.Visit` says, its scope objects read as a chain end as that function's state, and on success its current scope is the one it started in |
| Analyzer.SemanticAnalyzer.VisitControlStatement | Interpreter/AnalyzerService/SemanticAnalyzerControlStatementRelated.cs:9-163 | return, break, continue and the loops and branches: returns the type and annotated node that `Analysis.Visit` says, its scope objects read as a chain end as that function's state, and on success its current scope is the one it started in |
| Analyzer.SemanticAnalyzer.VisitVariable | Interpreter/AnalyzerService/SemanticAnalyzer.cs:282-292 | returns the type and annotated node that `Analysis.VisitVariable` says, without changing anything |
| Analyzer.SemanticAnalyzer.VisitCompound | Interpreter/AnalyzerService/SemanticAnalyzer.cs:127-148 | the loop over the children returns the type and annotated node that `Analysis.VisitCompound` says, its scope objects read as a chain end as that function's state, and on success its current scope is the one it started in |
| Analyzer.SemanticAnalyzer.VisitBinaryOperator | Interpreter/AnalyzerService/SemanticAnalyzer.cs:150-166 | returns the type and annotated node that `Analysis.VisitBinaryOperator` says, its scope objects read as a chain end as that function's state, and on success its current scope is the one it started in |
| Analyzer.SemanticAnalyzer.VisitVariablesDeclarations | Interpreter/AnalyzerService/SemanticAnalyzer.cs:173-190 | the loop over the declarations returns the type and annotated node that `Analysis.VisitVariablesDeclarations` says, its scope objects read as a chain end as that function's state, and on success its current scope is the one it started in |
| Analyzer.SemanticAnalyzer.VisitVariableDeclaration | Interpreter/AnalyzerService/SemanticAnalyzer.cs:192-213 | returns the type and annotated node that `Analysis.VisitVariableDeclaration` says, its scope objects read as a chain end as that function's state, and on success its current scope is the one it started in |
| Analyzer.SemanticAnalyzer.VisitArrayInitialization | Interpreter/AnalyzerService/SemanticAnalyzer.cs:215-236 | the loop over the items returns the type and annotated node that `Analysis.VisitArrayInitialization` says, its scope objects read as a chain end as that function's state, and on success its current scope is the one it started in |
| Analyzer.SemanticAnalyzer.VisitIndexExpression | Interpreter/AnalyzerService/SemanticAnalyzer.cs:238-254 | returns the type and annotated node that `Analysis.VisitIndexExpression` says, its scope objects read as a chain end as that function's state, and on success its current scope is the one it started in |
| Analyzer.SemanticAnalyzer.VisitAssign | Interpreter/AnalyzerService/SemanticAnalyzer.cs:256-280 | returns the type and annotated node that `Analysis.VisitAssign` says, its scope objects read as a chain end as that function's state, and on success its current scope is the one it started in |
| Analyzer.SemanticAnalyzer.VisitFunctionDefinition | Interpreter/AnalyzerService/SemanticAnalyzer.cs:294-348 | returns the type and annotated node that `Analysis.VisitFunctionDefinition` says, its scope objects read as a chain end as that function's state, and on success its current scope is the one it started in |
| Analyzer.SemanticAnalyzer.OpenFunctionScope | Interpreter/AnalyzerService/SemanticAnalyzer.cs:294-327 | on success the function's fresh scope, enclosed by the old current one, is current, the returned function symbol and the chain are those of `Analysis.OpenFunctionScope`, and its errors are that function's |
| Analyzer.SemanticAnalyzer.DefineParameters | Interpreter/AnalyzerService/SemanticAnalyzer.cs:314-327 | the loop over the parameters returns the symbols and ends in the state of `Analysis.VisitParameters`, and its errors are that function's |
| Analyzer.SemanticAnalyzer.DefineParameter | Interpreter/AnalyzerService/SemanticAnalyzer.cs:316-324 | one parameter: the symbol and state of `Analysis.VisitParameter`, or its error |
| Analyzer.SemanticAnalyzer.VisitFunctionCall | Interpreter/AnalyzerService/SemanticAnalyzer.cs:350-381 | returns the type and annotated node that `Analysis.VisitFunctionCall` says, its scope objects read as a chain end as that function's state, and on success its current scope is the one it started in; so by `AnalysisProperties.CallArgumentRules` a wrongly typed argument at any position is rejected |
| Analyzer.SemanticAnalyzer.VisitActualParameters | Interpreter/AnalyzerService/SemanticAnalyzer.cs:367-376 | the loop over the arguments returns the type and annotated node that `Analysis.VisitArguments` says, its scope objects read as a chain end as that function's state, and on success its current scope is the one it started in; so by `AnalysisProperties.ArgumentsTypedRules` it accepts exactly the arguments typed as their formals |
| Analyzer.SemanticAnalyzer.VisitReturnStatement | Interpreter/AnalyzerService/SemanticAnalyzerControlStatementRelated.cs:9-17 | returns the type and annotated node that `Analysis.Visit` says, its scope objects read as a chain end as that function's state, and on success its current scope is the one it started in |
| Analyzer.SemanticAnalyzer.VisitScoped | Interpreter/AnalyzerService/SemanticAnalyzerControlStatementRelated.cs:120-129 | a body in a nested scope returns the type and annotated node that `Analysis.VisitScoped` says, its scope objects read as a chain end as that function's state, and on success its current scope is the one it started in |
| Analyzer.SemanticAnalyzer.VisitIfElseStatement | Interpreter/AnalyzerService/SemanticAnalyzerControlStatementRelated.cs:29-88 | returns the type and annotated node that `Analysis.VisitIfElse` says, its scope objects read as a chain end as that function's state, and on success its current scope is the one it started in |
| Analyzer.SemanticAnalyzer.VisitElifStatements | Interpreter/AnalyzerService/SemanticAnalyzerControlStatementRelated.cs:48-61 | the loop over the elif branches returns the type and annotated node that `Analysis.VisitElifs` says, its scope objects read as a chain end as that function's state, and on success its current scope is the one it started in |
| Analyzer.SemanticAnalyzer.VisitElifStatement | Interpreter/AnalyzerService/SemanticAnalyzerControlStatementRelated.cs:90-110 | returns the type and annotated node that `Analysis.VisitElif` says, its scope objects read as a chain end as that function's state, and on success its current scope is the one it started in |
| Analyzer.SemanticAnalyzer.VisitWhileStatement | Interpreter/AnalyzerService/SemanticAnalyzerControlStatementRelated.cs:112-132 | returns the type and annotated node that `Analysis.VisitWhile` says, its scope objects read as a chain end as that function's state, and on success its current scope is the one it started in |
| Analyzer.SemanticAnalyzer.VisitForStatement | Interpreter/AnalyzerService/SemanticAnalyzerControlStatementRelated.cs:134-163 | returns the type and annotated node that `Analysis.VisitFor` says, its scope objects read as a chain end as that function's state, and on success its current scope is the one it started in |
| Analyzer.SemanticAnalyzer.VisitEach | Interpreter/AnalyzerService/SemanticAnalyzerControlStatementRelated.cs:140-153 | the loops over the for loop's assignments and steps return the nodes and end in the state of `Analysis.VisitAll`, and their errors are that function's |
| Evaluation.NumberOf | Interpreter/InterpreterService/Interpreter.cs:125-132 | a number literal that does not parse fails with a format error naming its text |
| Evaluation.BoolOf | Interpreter/InterpreterService/Interpreter.cs:134-141 | a bool literal that does not parse fails with a format error naming its text |
| Evaluation.WriteTop | Interpreter/InterpreterService/Interpreter.cs:95-114 | writing a variable in the top record keeps the stack's depth and the output |
| Evaluation.Declare | Interpreter/InterpreterService/Interpreter.cs:172-200 | a declaration keeps the stack's depth and the output |
| Evaluation.DeclareAll | Interpreter/InterpreterService/Interpreter.cs:162-170 | a declaration list keeps the stack's depth and the output |
| Evaluation.WriteAll | Interpreter/InterpreterService/Interpreter.cs:186-198 | writing one value to every declared name keeps the stack's depth and the output |
| Evaluation.PrintCall | Interpreter/InterpreterService/Interpreter.cs:481-488 | print leaves the call stack as it was and returns nothing |
| Evaluation.BuiltinCall | Interpreter/InterpreterService/Interpreter.cs:468-479 | a builtin call leaves the call stack as it was and returns nothing |
| Evaluation.CallFailsInArguments | Interpreter/InterpreterService/Interpreter.cs:237-263 | an error while evaluating the arguments into the new record is the call's error |
| Evaluation.CallFailsInBody | Interpreter/InterpreterService/Interpreter.cs:237-263 | an error in the body, run with the new record pushed, is the call's error |
| Evaluation.CallReturns | Interpreter/InterpreterService/Interpreter.cs:237-263 | a call whose body completes pops the record it pushed and yields the body's result |
| Evaluation.WhileEnters | Interpreter/InterpreterService/Interpreter.cs:313-334 | an error in the first condition is the loop's; otherwise the loop continues from the condition's value and state |
| Evaluation.WhileTurns | Interpreter/InterpreterService/Interpreter.cs:313-334 | with the condition true, an error in the pass is the loop's, a break or return ends the loop with that result, and otherwise the loop goes round again from the pass's state |
| EvaluationProperties.KeepsTransitive | Interpreter/InterpreterService/Interpreter.cs:336-368 | the stack discipline composes across consecutive steps |
| EvaluationProperties.WriteTopKeeps | Interpreter/InterpreterService/Interpreter.cs:95-114 | a write to the top record keeps the call stack's depth, changes no record below the top one, and only appends to the output |
| EvaluationProperties.DeclareAllKeeps | Interpreter/InterpreterService/Interpreter.cs:162-170 | a declaration list keeps the call stack's depth, changes no record below the top one, and only appends to the output |
| EvaluationProperties.WriteAllKeeps | Interpreter/InterpreterService/Interpreter.cs:95-114 | writing every declared name keeps the call stack's depth, changes no record below the top one, and only appends to the output |
| EvaluationProperties.EvalKeeps | Interpreter/InterpreterService/Interpreter.cs:20-71 | every successful visit keeps the call stack's depth, changes no record below the top one, and only appends to the output: a function call pops the record it pushed |
| EvaluationProperties.ConditionKeeps | Interpreter/InterpreterService/Interpreter.cs:290-334 | evaluating a condition keeps the call stack's depth, changes no record below the top one, and only appends to the output |
| EvaluationProperties.ChildrenKeeps | Interpreter/InterpreterService/Interpreter.cs:336-368 | running a block's children keeps the call stack's depth, changes no record below the top one, and only appends to the output |
| EvaluationProperties.UnaryKeeps | Interpreter/InterpreterService/Interpreter.cs:370-392 | a unary operator keeps the call stack's depth, changes no record below the top one, and only appends to the output |
| EvaluationProperties.BinaryKeeps | Interpreter/InterpreterService/Interpreter.cs:394-466 | a binary operator keeps the call stack's depth, changes no record below the top one, and only appends to the output |
| EvaluationProperties.ItemsKeeps | Interpreter/InterpreterService/Interpreter.cs:202-216 | evaluating array items keeps the call stack's depth, changes no record below the top one, and only appends to the output |
| EvaluationProperties.IndexKeeps | Interpreter/InterpreterService/Interpreter.cs:218-230 | an index expression keeps the call stack's depth, changes no record below the top one, and only appends to the output |
| EvaluationProperties.AssignKeeps | Interpreter/InterpreterService/Interpreter.cs:95-114 | an assignment keeps the call stack's depth, changes no record below the top one, and only appends to the output |
| EvaluationProperties.ArgValues | Interpreter/InterpreterService/Interpreter.cs:246-249 | the evaluated arguments give one value each |
| EvaluationProperties.ArgValueAt | Interpreter/InterpreterService/Interpreter.cs:246-249 | the i-th value is argument i evaluated in the state the first i arguments leave, so the arguments are evaluated left to right in the caller's state |
| EvaluationProperties.FormalNamesSplit | Interpreter/InterpreterService/Interpreter.cs:246-249 | the formal names are the first one's and the rest's; distinct names stay distinct in the rest, which lacks the first |
| EvaluationProperties.ArgsBindFormals | Interpreter/InterpreterService/Interpreter.cs:246-249 | the argument loop succeeds exactly when every formal's argument yields a value; the record then keeps its name, kind and level, its keys become the old keys plus the formal names, every other key keeps its value, and the state is the one the arguments leave |
| EvaluationProperties.ArgsHoldValues | Interpreter/InterpreterService/Interpreter.cs:246-249 | with distinct formal names, each formal name in the built record holds the value of its own argument |
| EvaluationProperties.CalleeRecord | Interpreter/InterpreterService/Interpreter.cs:244-249 | the record a call pushes is named after the function, one level below its scope, keyed by exactly the formal names, each holding its argument's value |
| EvaluationProperties.ArgsKeeps | Interpreter/InterpreterService/Interpreter.cs:245-248 | evaluating the arguments into the new record keeps the call stack's depth, changes no record below the top one, and only appends to the output |
| EvaluationProperties.BodyKeeps | Interpreter/InterpreterService/Interpreter.cs:253 | running a body keeps the call stack's depth, changes no record below the top one, and only appends to the output |
| EvaluationProperties.CallKeeps | Interpreter/InterpreterService/Interpreter.cs:237-263 | a call keeps the call stack's depth, changes no record below the top one, and only appends to the output, the record it pushes being popped again |
| EvaluationProperties.IfElseKeeps | Interpreter/InterpreterService/Interpreter.cs:290-311 | an if-else keeps the call stack's depth, changes no record below the top one, and only appends to the output |
| EvaluationProperties.WhileKeeps | Interpreter/InterpreterService/Interpreter.cs:313-334 | a while loop keeps the call stack's depth, changes no record below the top one, and only appends to the output |
| EvaluationProperties.PassKeeps | Interpreter/InterpreterService/Interpreter.cs:318-331 | one pass of a while loop keeps the call stack's depth, changes no record below the top one, and only appends to the output |
| EvaluationProperties.WhileFromKeeps | Interpreter/InterpreterService/Interpreter.cs:318-331 | the rest of a while loop keeps the call stack's depth, changes no record below the top one, and only appends to the output |
| EvaluationProperties.AfterPassKeeps | Interpreter/InterpreterService/Interpreter.cs:318-331 | going on after a pass that kept the discipline keeps it |
| EvaluationProperties.ProgramRestoresStack | Interpreter/InterpreterService/Interpreter.cs:73-93 | running a program pushes the global record and pops it again, so the stack ends as it began, and the output only grows |
| EvaluationProperties.ChildrenResult | Interpreter/InterpreterService/Interpreter.cs:336-368 | a block yields nothing or a result that carries a return, break or continue signal |
| EvaluationProperties.ChildrenSplit | Interpreter/InterpreterService/Interpreter.cs:336-368 | a block of two parts runs the first part, stops there on an error or a signal, and otherwise runs the second part from the state the first left |
| EvaluationProperties.WhileFromResult | Interpreter/InterpreterService/Interpreter.cs:313-334 | a while loop yields nothing or a result carrying a return signal |
| EvaluationProperties.AfterPassResult | Interpreter/InterpreterService/Interpreter.cs:318-331 | going on after a pass preserves "nothing or a return" |
| EvaluationProperties.PassLeaves | Interpreter/InterpreterService/Interpreter.cs:320-328 | a pass that leaves the loop carries nothing or a return |
| EvaluationProperties.PassOnSignal | Interpreter/InterpreterService/Interpreter.cs:320-328 | a body that returns leaves the loop with its result; a body that breaks leaves it with nothing |
| EvaluationProperties.PassGoesOn | Interpreter/InterpreterService/Interpreter.cs:318-331 | a body that completes or continues is followed by the condition, whose value and state decide the next turn, and whose error is the pass's |
| EvaluationProperties.PassFails | Interpreter/InterpreterService/Interpreter.cs:318-331 | an error in the body is the pass's error |
| EvaluationProperties.WhileResult | Interpreter/InterpreterService/Interpreter.cs:313-334 | a whole while loop yields nothing or a result carrying a return signal |
| EvaluationProperties.WhileLeavesOnSignal | Interpreter/InterpreterService/Interpreter.cs:320-328 | with the condition true, a return in the body is the loop's result and a break ends the loop with nothing |
| EvaluationProperties.WhileGoesRound | Interpreter/InterpreterService/Interpreter.cs:318-331 | with the condition true, a body that completes or continues is followed by the loop again from the re-evaluated condition |
| EvaluationProperties.WhileFailsInCondition | Interpreter/InterpreterService/Interpreter.cs:318-331 | an error in re-evaluating the condition after a pass is the loop's |
| EvaluationProperties.WhileFailsInBody | Interpreter/InterpreterService/Interpreter.cs:318-331 | an error in the body is the loop's |
| EvaluationProperties.WhileFalseSkipsBody | Interpreter/InterpreterService/Interpreter.cs:313-334 | a loop whose first condition is false yields nothing from the condition's state, whatever its body |
| EvaluationProperties.IfElseRunsOneBranch | Interpreter/InterpreterService/Interpreter.cs:290-311 | with the condition true the else branch is never looked at and with it false the then branch is not; a condition error is the statement's; the statement passes on only a result that carries a signal |
| EvaluationProperties.WriteTopThenRead | Interpreter/Memory/ActivationRecord.cs:17-28 | with a record on the stack a write succeeds, reading the name back gives the value, and every other name reads as before |
| EvaluationProperties.DeclarationInitialises | Interpreter/InterpreterService/Interpreter.cs:172-200 | a declaration always succeeds and gives an array the empty list, a number 0, a bool false and a string the empty string, and leaves any other type's variable unset |
| EvaluationProperties.DeclarationsInitialise | Interpreter/InterpreterService/Interpreter.cs:162-170 | every variable of a declaration list reads as its type's initial value afterwards |
| EvaluationProperties.DeclareAllLeavesOthers | Interpreter/InterpreterService/Interpreter.cs:162-170 | a declaration list leaves every other variable as it was |
| EvaluationProperties.WriteAllReads | Interpreter/InterpreterService/Interpreter.cs:95-114 | with a record on the stack, writing to every declared name succeeds, each reads back the value, and every other name reads as before |
| EvaluationProperties.AssignmentWrites | Interpreter/InterpreterService/Interpreter.cs:95-114 | a successful assignment evaluated its right side to a value and wrote that value under the variable, or under every declared name, and yields nothing |
| EvaluationProperties.IndexRules | Interpreter/InterpreterService/Interpreter.cs:218-230 | an index within the array reads that item, a negative index within the array's length counts from its end, and any other index is out of range |
| ArithmeticEvaluation.NumberEvaluates | Interpreter/InterpreterService/Interpreter.cs:125-132 | a number literal evaluates to its value and changes nothing |
| ArithmeticEvaluation.OperatorEvaluates | Interpreter/InterpreterService/Interpreter.cs:394-466 | an arithmetic or comparison operator applies its operation to the values of its operands |
| ArithmeticEvaluation.ExampleLiterals | Interpreter/InterpreterService/Interpreter.cs:125-132 | the literals 14, 2, 3 and 6 parse to those numbers |
| ArithmeticEvaluation.TreeEvaluatesTo17 | Interpreter/InterpreterService/Interpreter.cs:394-417 | the tree of 14 + 2 * 3 - 6 / 2 evaluates to 17 |
| ArithmeticEvaluation.ExampleEvaluatesTo17 | Interpreter/ParserService/ParserExpressionRelated.cs:11-49 | the tokens of 14 + 2 * 3 - 6 / 2 parse as one arithmetic expression over all nine tokens, which evaluates to 17: multiplication and division bind tighter than addition and subtraction |
| InterpreterService.Interpreter.constructor | Interpreter/InterpreterService/Interpreter.cs:13 | a new interpreter has an empty call stack, no output, and the function bodies it is given |
| InterpreterService.Interpreter.WriteTop | Interpreter/Memory/ActivationRecord.cs:17-28 | writing the top record changes the call stack exactly as `Evaluation.WriteTop` says, or fails as it does |
| InterpreterService.Interpreter.ReadTop | Interpreter/InterpreterService/Interpreter.cs:116-123 | reading the top record returns exactly `Evaluation.ReadTop` of the state |
| InterpreterService.Interpreter.Visit | Interpreter/InterpreterService/Interpreter.cs:20-71 | the dispatcher returns what `Evaluation.Eval` gives and leaves the call stack object holding that function's final stack and output; on success the stack keeps its depth |
| InterpreterService.Interpreter.VisitExpression | Interpreter/InterpreterService/Interpreter.cs:116-150 | literals, variables and operators: returns what `Evaluation.Eval` gives and leaves the call stack object holding that function's final stack and output; on success the stack keeps its depth |
| InterpreterService.Interpreter.VisitStatement | Interpreter/InterpreterService/Interpreter.cs:20-71 | statements: returns what `Evaluation.Eval` gives and leaves the call stack object holding that function's final stack and output; on success the stack keeps its depth |
| InterpreterService.Interpreter.VisitReturnStatement | Interpreter/InterpreterService/Interpreter.cs:265-272 | returns what `Evaluation.Eval` gives and leaves the call stack object holding that function's final stack and output; on success the stack keeps its depth |
| InterpreterService.Interpreter.VisitCondition | Interpreter/InterpreterService/Interpreter.cs:292-293 | a condition's truth value returns what `Evaluation.EvalCondition` gives and leaves the call stack object holding that function's final stack and output; on success the stack keeps its depth |
| InterpreterService.Interpreter.VisitCompound | Interpreter/InterpreterService/Interpreter.cs:336-368 | the loop over the children returns what `Evaluation.EvalChildren` gives and leaves the call stack object holding that function's final stack and output; on success the stack keeps its depth |
| InterpreterService.Interpreter.VisitUnaryOperator | Interpreter/InterpreterService/Interpreter.cs:370-392 | returns what `Evaluation.EvalUnary` gives and leaves the call stack object holding that function's final stack and output; on success the stack keeps its depth |
| InterpreterService.Interpreter.VisitBinaryOperator | Interpreter/InterpreterService/Interpreter.cs:394-466 | returns what `Evaluation.EvalBinary` gives and leaves the call stack object holding that function's final stack and output; on success the stack keeps its depth |
| InterpreterService.Interpreter.VisitArrayInitialization | Interpreter/InterpreterService/Interpreter.cs:202-216 | the loop over the items returns the values and state of `Evaluation.EvalItems`, or its error |
| InterpreterService.Interpreter.VisitIndexExpression | Interpreter/InterpreterService/Interpreter.cs:218-230 | returns what `Evaluation.EvalIndex` gives and leaves the call stack object holding that function's final stack and output; on success the stack keeps its depth |
| InterpreterService.Interpreter.VisitVariableDeclaration | Interpreter/InterpreterService/Interpreter.cs:172-200 | the top record changes exactly as `Evaluation.Declare` says |
| InterpreterService.Interpreter.VisitVariablesDeclarations | Interpreter/InterpreterService/Interpreter.cs:162-170 | the loop over the declarations changes the top record exactly as `Evaluation.DeclareAll` says |
| InterpreterService.Interpreter.WriteToAll | Interpreter/InterpreterService/Interpreter.cs:105-109 | the loop writing every declared name changes the top record exactly as `Evaluation.WriteAll` says |
| InterpreterService.Interpreter.VisitAssign | Interpreter/InterpreterService/Interpreter.cs:95-114 | returns what `Evaluation.EvalAssign` gives and leaves the call stack object holding that function's final stack and output; on success the stack keeps its depth |
| InterpreterService.Interpreter.PrintFunctionCall | Interpreter/InterpreterService/Interpreter.cs:481-488 | print appends the line `Evaluation.PrintCall` gives to the output, or fails as it does |
| InterpreterService.Interpreter.BuiltinFunctionCall | Interpreter/InterpreterService/Interpreter.cs:468-479 | returns what `Evaluation.BuiltinCall` gives, the stack untouched |
| InterpreterService.Interpreter.EvaluateArguments | Interpreter/InterpreterService/Interpreter.cs:245-248 | the loop over the parameters fills the new record and leaves the state exactly as `Evaluation.EvalArgs` says, or fails with its error; what that record holds is stated by `EvaluationProperties.ArgsBindFormals`, `EvaluationProperties.ArgsHoldValues` and `EvaluationProperties.CalleeRecord` |
| InterpreterService.Interpreter.VisitFunctionCall | Interpreter/InterpreterService/Interpreter.cs:237-263 | push, body, pop: returns what `Evaluation.EvalCall` gives and leaves the call stack object holding that function's final stack and output; on success the stack keeps its depth |
| InterpreterService.Interpreter.VisitBody | Interpreter/InterpreterService/Interpreter.cs:253 | a builtin's or a user function's body returns what `Evaluation.EvalBody` gives and leaves the call stack object holding that function's final stack and output; on success the stack keeps its depth |
| InterpreterService.Interpreter.VisitProgram | Interpreter/InterpreterService/Interpreter.cs:73-93 | running the program through its Main returns what `Evaluation.EvalProgram` gives and leaves the call stack object holding that function's final stack and output; on success the stack keeps its depth |
| InterpreterService.Interpreter.VisitIfElseStatement | Interpreter/InterpreterService/Interpreter.cs:290-311 | returns what `Evaluation.EvalIfElse` gives and leaves the call stack object holding that function's final stack and output; on success the stack keeps its depth |
| InterpreterService.Interpreter.VisitWhileStatement | Interpreter/InterpreterService/Interpreter.cs:313-334 | returns what `Evaluation.EvalWhile` gives and leaves the call stack object holding that function's final stack and output; on success the stack keeps its depth |
| InterpreterService.Interpreter.WhileLoop | Interpreter/InterpreterService/Interpreter.cs:316-331 | the while loop itself returns what `Evaluation.WhileFrom` gives and leaves the call stack object holding that function's final stack and output; on success the stack keeps its depth |
| InterpreterService.Interpreter.WhileTurn | Interpreter/InterpreterService/Interpreter.cs:318-330 | one turn: its error is the loop's, leaving gives the loop's result in the present state, and going on leaves the rest of the loop equal to the loop from here with one unit of fuel less |
| InterpreterService.Interpreter.WhilePass | Interpreter/InterpreterService/Interpreter.cs:318-330 | one pass returns what `Evaluation.PassOf` gives and leaves the call stack object holding that function's final stack and output; on success the stack keeps its depth |
| IntendedAnalysis.ResolveOverload | Interpreter/AnalyzerService/ScopedSymbolTable.cs:101-109 | the resolved print overload is one of the candidates and accepts the argument's type; nothing is resolved only when no candidate accepts it |
| IntendedAnalysis.ResolveFrom | Interpreter/AnalyzerService/ScopedSymbolTable.cs:101-109 | resolving from a position finds an accepting candidate, or there is none from that position on |
| IntendedAnalysis.ResolvesAt | Interpreter/AnalyzerService/ScopedSymbolTable.cs:101-109 | the resolution finds the first accepting candidate |
| IntendedAnalysis.NumberPrintOverloads | Interpreter/AnalyzerService/ScopedSymbolTable.cs:101-109 | a number argument resolves to the overload taking a number, a number array to the one taking a number array |
| IntendedAnalysis.BoolPrintOverloads | Interpreter/AnalyzerService/ScopedSymbolTable.cs:101-109 | a bool argument resolves to the overload taking a bool, a bool array to the one taking a bool array |
| IntendedAnalysis.StringPrintOverloads | Interpreter/AnalyzerService/ScopedSymbolTable.cs:101-109 | a string argument resolves to the overload taking a string, a string array to the one taking a string array |
| IntendedAnalysis.NotAccepted | Interpreter/AnalyzerService/ScopedSymbolTable.cs:101-109 | an overload whose parameter type name differs in length or first letter from the argument's does not accept it |
| IntendedAnalysis.PrintResolvesByArgument | Interpreter/AnalyzerService/ScopedSymbolTable.cs:101-109 | for every scalar type, print of that type and print of its array type resolve to the matching overload |
| IntendedAnalysis.PrintCandidates | Interpreter/AnalyzerService/ScopedSymbolTable.cs:74-109 | all print symbols of a seeded scope are exactly the six overloads, in definition order |
| IntendedAnalysis.PrintAcceptsString | Interpreter/AnalyzerService/SemanticAnalyzer.cs:367-376 | a string literal passes the argument check against the string overload of print |
| IntendedAnalysis.PrintAcceptsBool | Interpreter/AnalyzerService/SemanticAnalyzer.cs:367-376 | a bool literal passes the argument check against the bool overload of print |
| IntendedAnalysis.IntendedAgreesOnArithmetic | Interpreter/AnalyzerService/SemanticAnalyzer.cs:150-166 | on expressions without comparisons the intended typing agrees with the analysis as written, in success, type, state and error |
| IntendedAnalysis.IntendedComparisonsAreBool | Interpreter/AnalyzerService/SemanticAnalyzer.cs:155-163 | with comparisons typed by the builtin bool, a bool literal combined with a comparison is accepted as bool |
| IntendedEvaluation.CallOfReturningFunction | Interpreter/InterpreterService/Interpreter.cs:237-263 | calling a function whose body returns a number literal yields that number with a return signal and restores the state |
| IntendedEvaluation.CallStatementEndsBlock | Interpreter/InterpreterService/Interpreter.cs:336-368 | as written, a call statement of a function that returns a value ends the enclosing block with that value, skipping the rest |
| IntendedEvaluation.CallStatementContinues | Interpreter/InterpreterService/Interpreter.cs:336-368 | with the intended block semantics, a successful call statement is followed by the rest of the block from its state |
| IntendedEvaluation.IntendedCallOfReturningFunction | Interpreter/InterpreterService/Interpreter.cs:336-368 | with the intended block semantics, a call statement of a returning function does not end the block |
| IntendedEvaluation.IntendedAgreesWithoutCalls | Interpreter/InterpreterService/Interpreter.cs:336-368 | on blocks with no call statement the intended block semantics agrees with the block as written |

## Left out

- Character classes are ASCII only: the lexer's letter, digit and white-space tests and the case folding and trimming of `Values.ToLower`, `Values.TrimStart` and `Values.TrimEnd` stand in for the host's Unicode `char.IsLetterOrDigit`, `char.IsWhiteSpace`, `ToLower` and `Trim`.
- Numbers are integers where the source computes with `double`:
  - `7 / 2` is 3 in the model and 3.5 in the source;
  - `%` is the matching integer remainder;
  - division or remainder by zero is the error `DivideByZero`, where the source yields an infinity or NaN;
  - `Evaluation.NumberOf` reads decimal digits only, so "1.5" and "1e5" are format errors, though `double.Parse` accepts them;
  - an index is used as it is, with no `(int)` truncation cast.
- The evaluator is given fuel, one unit per call and per loop turn, and can end in the error `OutOfFuel`. The source has no such bound: a run that never ends is not captured.
- The analyser calls `Lookup(name)` and `Lookup(name, onlyCurrent)` on its current table (SemanticAnalyzer.cs:85-352), but ScopedSymbolTable.cs defines only `LookupSingle` (:57) and `LookupMany` (:74); the model reads each such `Lookup` as `LookupSingle`, as SemanticAnalyzerControlStatementRelated.cs:16 calls it, and the `print` finding rests on that reading.
- Activation records are values: the aliasing of record objects and of the host's lists (two names referring to one list) is not modelled.
- `ValueEquals`: `==` and `!=` on two arrays compare list references in the source and yield a bool; the model has no list identity and answers with the error `InvalidCast`.
- Runtime errors of the host (an invalid cast, a missing key, a null dereference, an index out of range) become explicit error results. Where one visit could meet two of them, the model may report a different one first (for example a null operand when the stack is empty).
- A `Block` node is analysed and run as a `Compound`. The analyser's dispatcher has no case for an elif node (SemanticAnalyzer.cs:30-81); the model routes an elif to `VisitElifStatement`, which the newer if-else visit calls for each branch.
- Runtime `for` loops and array slicing are not evaluated:
  - the interpreter's dispatcher has no `for` case, so a `for` loop is the error `NoVisitMethod`, as in the source;
  - slice bounds on a variable are ignored when it is read, as in the source.
- Logging and debug dumps (`DebugPrintSymbolTable`, the `Logger` calls, the stack and record `ToString` dumps) are not modelled. Printing appends a line to the output sequence instead of writing to the console.
- The lexer's comment skipping never ends on a comment that reaches the end of the text. The model returns the error `UnterminatedComment` instead.
- The lexer's constructor fails on empty text, so `Lexer.Lexer.constructor` requires a non-empty text.
- The parser's statement list never ends when a statement position holds a token that starts no statement and is not `}`. The model returns the error `UnexpectedToken` there instead.
- Superseded earlier versions of the lexer, parser, analyser, interpreter and their symbol and token classes, the REPL and the plain data classes are not part of this model: the AST, tokens, error codes and symbols are datatypes.
- Precedence is proved by one-step lemmas that hold for every token stream (loops fold from the left, a sign binds to its factor, parentheses make a factor) and by fixed-shape groupings. There is no single theorem that every parsed expression is a left-associated sum of products.

## Findings

| source | as written | input that shows it | evidently intended | confidence | as-written member | corrected member |
|---|---|---|---|---|---|---|
| Interpreter/AnalyzerService/ScopedSymbolTable.cs:101-109 | six `print` overloads are defined, but calls resolve with a single-symbol lookup, which always finds the first, the number overload | `print("x")` or `print(true)` is rejected as incompatible types | the overload whose parameter type matches the argument is chosen | not executed | AnalysisProperties.PrintRejectsNonNumbers | IntendedAnalysis.PrintResolvesByArgument |
| Interpreter/AnalyzerService/SemanticAnalyzer.cs:155-163 | a comparison is typed by a new plain symbol named `bool`, which is unequal (by class) to the builtin `bool` of literals and variables | `true && 1 < 2` is rejected as incompatible types | comparisons yield the builtin `bool` | not executed | AnalysisProperties.ComparisonIsNotBuiltinBool | IntendedAnalysis.IntendedComparisonsAreBool |
| Interpreter/Common/Symbols/Symbol.cs:40-43 | the hash combines the scope level, which equality ignores | two equal variable symbols at scope levels 1 and 2 hash differently | equal symbols hash alike | not executed | Symbols.EqualSymbolsWithDifferentHashInputs | Symbols.ConsistentHashRespectsEquality |
| Interpreter/InterpreterService/Interpreter.cs:336-368 | a call's result carries the return signal of the callee's `return`, and the block loop passes any signal on | `{ f(); x = 1; }` with `f` returning a value ends the block at the call, so `x = 1` never runs | a call used as a statement does not end the caller's block | not executed | IntendedEvaluation.CallStatementEndsBlock | IntendedEvaluation.IntendedCallOfReturningFunction |
