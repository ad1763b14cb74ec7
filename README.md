# tsLetLang in Dafny

A model of the whole pipeline of tsLetLang, a small expression-oriented
language:

- the lexer turns source text into tokens;
- the recursive-descent parser turns the tokens into a module of function
  declarations;
- the tree-walking interpreter evaluates `main` against a chain of lexical
  scopes.

The model follows the TypeScript sources one stage at a time.

- `ast.dfy` (module `Ast`) holds the values shared by every stage:
  - locations, and the two strings they are rendered into (`line:column`
    and `message from file at line:column`);
  - the eight token types and tokens;
  - the seven expression variants and modules.

  A thrown `Location.error` becomes the `Err` case of a `Result` value.
- `lexer.dfy` (module `Lexing`) has two halves.
  - Functions state what each scanning step computes: `SkipWhitespace`,
    `MatchRule`, `WordEnd`, `WordToken`, `StringToken`, `NextToken`, and
    `LexFrom`/`Tokenize` for the whole input.
  - The class `Lexer` keeps the source's `index`, `line` and `column` fields
    and its `while` loops. Each method is proved to compute what the
    functions say.

  `Position`, `LocAt` and `PositionCountsLines` state how lines and columns
  are counted.

  `lexer_props.dfy` proves the lexer's promises:
  - one final `EOF` token;
  - first-rule classification and maximal munch;
  - `Invalid character` errors;
  - verbatim string literals;
  - the tokens spell the text without its whitespace.
- `parser.dfy` (module `Parsing`) also has two halves.
  - One function per `parse*` method reads a token array from an index
    (`ModuleFrom`, `FunctionFrom`, …, `TermFrom`).
  - The class `Parser` keeps the mutable `index` and the `while` loops that
    push parameters, arguments, block bodies and declarations. Each method
    is proved equal to its function.

  `parser_props.dfy` proves:
  - where errors are reported;
  - the shapes the grammar produces, including the desugaring of operators
    into `Core.<op>` calls and of array literals into `List.build` calls;
  - operator precedence;
  - that each binary level takes at most one operator.

  `parser_roundtrip.dfy` defines an unparser, `Print`. It proves that every
  tree the grammar can express parses back to itself, locations included.
  It proves the same for whole modules.
- `interpreter.dfy` (module `Interpreting`) models the scope chain as a
  store: a sequence of contexts indexed by creation order.
  - Each context holds a name→value map and the index of its parent.
  - A closure value refers to its defining context by index, so it captures
    that scope by reference.
  - `Eval` is the evaluator as a function of the store.
  - The class `Interpreter` keeps the store in a field and performs the
    source's steps in place:
    - it opens a child context for a block;
    - it runs the loop over the block's expressions;
    - it runs the loop that binds parameters in a call;
    - it calls `Context.set`.

    Each method is proved equal to `Eval`.

  `interpreter_props.dfy` proves:
  - lookup walks outward to the nearest binding;
  - `set` is local;
  - blocks leave no bindings behind;
  - the evaluation rules for each kind of expression;
  - positional parameter binding;
  - capture by reference;
  - what `interpretModule` does with and without `main`.

Builtins other than `List.build` come from the host. So do the text
`String(value)` gives a value, and `parseFloat`. All three are a
`Runtime` parameter of the interpreter (`call`, `show`, `number`).

Behaviour kept from the code where a plain reading of the language's design
would differ:
- Each binary level (compare, sum, product) takes one operator at most.
  So `a + b + c` is a syntax error at the second `+`, reported by
  `parseModule` (`ParserProperties.OperatorsDoNotChain`,
  `ParserProperties.ChainedOperatorsAreRejected`).
- `checkExact` compares only a token's word. A string literal whose text is
  `}`, `,` or `]` therefore closes a block, separates arguments or ends an
  array literal, just as the symbol would.
- `!` starts no lexer rule, so `!=` cannot be lexed even though the library
  binds `Core.!=` (`LexerProperties.NotEqualsIsRejected`).

## Model

| member | source | states |
|---|---|---|
| Ast.Render | src/ast.ts:10-12 | a location renders as `line:column`: the line and the column are read back from the rendered text |
| Ast.ErrorText | src/ast.ts:14-16 | the text `Location.error` throws starts with the error's message and ends with the location's `line:column`, which is read back from it whatever the message and file name hold |
| Ast.ParseNatToString | src/ast.ts:10-12 | the decimal digits used to render a line or column number read back as that number |
| Lexing.CharSetIsVisible | src/lexer.ts:5-14 | no character of any character class is whitespace or a double quote |
| Lexing.RuleCharsAreVisible | src/lexer.ts:16-36 | no init or body character of any rule is whitespace or a double quote |
| Lexing.Position | src/lexer.ts:42-52 | the cursor starts at line 1, column 1, never goes below them, and is at column 1 exactly at the start of the text or after a newline |
| Lexing.PositionCountsLines | src/lexer.ts:84-101 | the line is one plus the number of newlines consumed; the column is one plus the characters consumed since the last newline |
| Lexing.LocAt | src/lexer.ts:50-52 | the location of an index is in the lexed file, on line one plus the newlines before it, at column one plus the characters since the last of them |
| Lexing.MatchRule | src/lexer.ts:104-105 | the rule found for a character is one of the remaining rules, and its init set contains the character |
| Lexing.SkipWhitespace | src/lexer.ts:84-101 | skipping stops at the end of the run of whitespace: everything skipped is whitespace, and the next character is not |
| Lexing.WordEnd | src/lexer.ts:108-111 | a word grows exactly as far as the characters stay in the rule's body set (maximal munch) |
| Lexing.QuoteIndex | src/lexer.ts:138-158 | finds the first double quote at or after a position, or reports that none is left |
| Lexing.WordToken | src/lexer.ts:103-130 | a word token consumes at least one character and stays inside the text |
| Lexing.StringToken | src/lexer.ts:132-163 | a string literal consumes at least its opening quote and stays inside the text |
| Lexing.NextToken | src/lexer.ts:185-193 | the next token consumes at least one character; its location, and the location of its error, is the cursor at its first character |
| Lexing.LexFrom | src/lexer.ts:165-195 | lexing the rest of the text keeps the tokens already read in front and ends with an `EOF` token with an empty word, located at the end of the text |
| Lexing.Tokenize | src/lexer.ts:165-195 | a lexed text ends with an `EOF` token with an empty word, located at the end of the text |
| Lexing.Lexer.constructor | src/lexer.ts:42-48 | a new lexer is at index 0, line 1, column 1 of its text |
| Lexing.Lexer.Here | src/lexer.ts:50-52 | the current location is the line and column reached after the characters consumed so far |
| Lexing.Lexer.EatWhitespace | src/lexer.ts:84-101 | the loop advances the index to the end of the whitespace run and keeps line and column in step |
| Lexing.Lexer.EatBody | src/lexer.ts:108-111 | the loop extends the word to the end of the run of body characters; the word is exactly the characters consumed |
| Lexing.Lexer.EatWord | src/lexer.ts:103-130 | reading a word gives the token, or the `Invalid character` error, that the word rule defines |
| Lexing.Lexer.EatString | src/lexer.ts:132-163 | reading a string literal gives the token, or the unclosed-literal error, that the string rule defines, and counts newlines inside it |
| Lexing.Lexer.EatToken | src/lexer.ts:185-193 | reading one token gives what the next-token rule defines and advances the index |
| Lexing.Lexer.Lex | src/lexer.ts:165-195 | the lexing loop returns the tokens the lexing rule defines, and on success has consumed the whole text |
| Lexing.LexSource | src/lexer.ts:66-67 | lexing a text with a new lexer gives the tokens of the whole text |
| LexerProperties.NextTokenIsNotEof | src/lexer.ts:185-193 | a token read from the text is never an `EOF` token |
| LexerProperties.LexFromEndsWithEof | src/lexer.ts:176-183 | lexing the rest of the text appends tokens and ends with exactly one `EOF` token, whose word is empty |
| LexerProperties.TokenizeEndsWithEof | src/lexer.ts:176-183 | a lexed text ends with one `EOF` token with an empty word, and no other token is `EOF` |
| LexerProperties.MatchRuleIsFirst | src/lexer.ts:104-105 | a rule is found iff some remaining rule's init set has the character, and the found rule is the first such rule |
| LexerProperties.InitSetsAreDisjoint | src/lexer.ts:16-36 | no character starts two rules |
| LexerProperties.MatchRuleIsTheRuleStartingWith | src/lexer.ts:104-105 | the rule found for a character is exactly the rule whose init set contains it |
| LexerProperties.WordTokenIsMaximalMunch | src/lexer.ts:103-127 | a word token exists iff a rule starts with its first character; it then spans the longest run of body characters, and its type is `keyword` exactly when the word is a keyword |
| LexerProperties.KeywordsWouldBeIdentifiers | src/lexer.ts:38 | every keyword would otherwise be read whole as an identifier |
| LexerProperties.SymbolTokensAreOneCharacter | src/lexer.ts:29-31 | a symbol token is always exactly one character |
| LexerProperties.OperatorsMunch | src/lexer.ts:24-28 | two operator characters in a row form one operator token of at least two characters |
| LexerProperties.InvalidCharacterIsRejected | src/lexer.ts:129 | a character that is not a quote fails iff no rule starts with it, with the message `Invalid character` and that character |
| LexerProperties.NotEqualsIsRejected | src/lexer.ts:14 | the text `!=` fails at 1:1 with `Invalid character !` |
| LexerProperties.StringLiteralIsVerbatim | src/lexer.ts:132-163 | a string literal succeeds iff a closing quote follows; its word is the characters between the quotes verbatim; otherwise the error is the unclosed-literal one |
| LexerProperties.ClosedStringLiteral | src/lexer.ts:138-158 | with a closing quote, the literal ends right after it and its word excludes both quotes |
| LexerProperties.QuotedAbc | src/lexer.ts:165-195 | the text `"abc"` lexes to a string literal `abc` at 1:1 followed by `EOF` at 1:6 |
| LexerProperties.WordIsVisible | src/lexer.ts:103-111 | a word token spells exactly the characters it consumed, none of them whitespace |
| LexerProperties.NonWhitespaceExtends | src/lexer.ts:165-195 | the visible text grows by a run of visible characters and not by a run of whitespace |
| LexerProperties.SpellingFrom | src/lexer.ts:165-195 | lexing the rest of a text without quotes keeps the tokens' words equal to the text's non-whitespace characters |
| LexerProperties.TokensSpellTheText | src/lexer.ts:165-195 | for a text without string literals, the words of the tokens, in order, are its characters without whitespace |
| Parsing.TokenizeIsWellFormed | src/lexer.ts:176-183 | what the lexer produces is a token array the parser accepts: non-empty and ending in `EOF` |
| Parsing.TypeAt | src/parser.ts:21-29 | `expectType` consumes one token; it succeeds iff the token has the type, and otherwise fails at that token |
| Parsing.ExactAt | src/parser.ts:31-37 | `expectExact` consumes one token; it succeeds iff the token has the word, and otherwise fails at that token |
| Parsing.Binary | src/parser.ts:162-173 | an operator token becomes a call of `Core.<op>` located at the operator, with the left operand first and the right second; the node holds both operands whole |
| Parsing.ModuleFrom | src/parser.ts:61-76 | a parsed module holds the declarations already read followed by the new ones, in source order, and reads none exactly when it stands at `EOF` |
| Parsing.FunctionFrom | src/parser.ts:78-106 | a function declaration consumes tokens, never the final `EOF`, and is located at its `fun` keyword |
| Parsing.ParamsFrom | src/parser.ts:84-94 | reading the parameters never passes the end of the tokens |
| Parsing.ParamsRestFrom | src/parser.ts:91-93 | reading further comma-separated parameters never passes the end of the tokens |
| Parsing.ExpressionFrom | src/parser.ts:108-118 | an expression consumes at least one token and never the final `EOF` |
| Parsing.AssignmentFrom | src/parser.ts:120-133 | an assignment consumes at least one token and never the final `EOF` |
| Parsing.IfFrom | src/parser.ts:135-156 | an `if` consumes at least one token and never the final `EOF` |
| Parsing.CompareFrom | src/parser.ts:158-178 | a comparison consumes at least one token and never the final `EOF` |
| Parsing.SumFrom | src/parser.ts:180-200 | a sum consumes at least one token and never the final `EOF` |
| Parsing.ProdFrom | src/parser.ts:202-222 | a product consumes at least one token and never the final `EOF` |
| Parsing.CallFrom | src/parser.ts:224-258 | a call consumes at least one token and never the final `EOF` |
| Parsing.ArgumentsFrom | src/parser.ts:228-254 | an argument list up to its closing word consumes at least one token and never the final `EOF` |
| Parsing.ArgumentsRestFrom | src/parser.ts:243-245 | reading further comma-separated arguments never passes the end of the tokens |
| Parsing.BlockFrom | src/parser.ts:260-278 | a block consumes at least one token and never the final `EOF` |
| Parsing.BlockBodyFrom | src/parser.ts:266-268 | the rest of a block consumes at least one token and never the final `EOF` |
| Parsing.ArrayLiteralFrom | src/parser.ts:280-319 | an array literal consumes at least one token and never the final `EOF` |
| Parsing.TermFrom | src/parser.ts:321-357 | a term consumes at least one token and never the final `EOF` |
| Parsing.ModuleOf | src/parser.ts:16-19 | parsing a token array gives the empty module exactly when the first token is `EOF`, and that case never fails |
| Parsing.Parser.constructor | src/parser.ts:7-10 | a new parser reads the given tokens from index 0 |
| Parsing.Parser.CheckType | src/parser.ts:39-48 | on a token of the type it returns the token and advances by exactly one; otherwise it returns nothing and does not move |
| Parsing.Parser.CheckExact | src/parser.ts:49-58 | on a token with the word it returns the token and advances by exactly one; otherwise it returns nothing and does not move |
| Parsing.Parser.ExpectType | src/parser.ts:21-29 | consumes one token and gives what `TypeAt` defines: the token, or a syntax error at it |
| Parsing.Parser.ExpectExact | src/parser.ts:31-37 | consumes one token and gives what `ExactAt` defines: nothing, or a syntax error at it |
| Parsing.Parser.ParseModule | src/parser.ts:61-76 | the loop pushing declarations gives what `ModuleFrom` defines |
| Parsing.Parser.ParseFunction | src/parser.ts:78-106 | the declaration, including the parameter loop, is what `FunctionFrom` defines, and the index ends where it says |
| Parsing.Parser.ParseExpression | src/parser.ts:108-118 | gives what `ExpressionFrom` defines, and the index ends where it says |
| Parsing.Parser.ParseAssignment | src/parser.ts:120-133 | gives what `AssignmentFrom` defines, and the index ends where it says |
| Parsing.Parser.ParseIf | src/parser.ts:135-156 | gives what `IfFrom` defines, and the index ends where it says |
| Parsing.Parser.ParseCompare | src/parser.ts:158-178 | gives what `CompareFrom` defines, and the index ends where it says |
| Parsing.Parser.ParseSum | src/parser.ts:180-200 | gives what `SumFrom` defines, and the index ends where it says |
| Parsing.Parser.ParseProd | src/parser.ts:202-222 | gives what `ProdFrom` defines, and the index ends where it says |
| Parsing.Parser.ParseCall | src/parser.ts:224-258 | gives what `CallFrom` defines, and the index ends where it says |
| Parsing.Parser.ParseArgumentsRest | src/parser.ts:243-245 | the loop pushing arguments gives what `ArgumentsRestFrom` defines |
| Parsing.Parser.ParseBlock | src/parser.ts:260-278 | the loop pushing block expressions gives what `BlockFrom` defines |
| Parsing.Parser.ParseArrayLiteral | src/parser.ts:280-319 | the loop pushing elements gives what `ArrayLiteralFrom` defines |
| Parsing.Parser.ParseTerm | src/parser.ts:321-357 | gives what `TermFrom` defines, and the index ends where it says |
| Parsing.ParseTokens | src/parser.ts:16-19 | parsing with a new parser gives the module that the token array defines |
| ParserProperties.TypeAtFails | src/parser.ts:21-29 | a failed `expectType` reports `Syntax error. Expected …` at the token it read |
| ParserProperties.ExactAtFails | src/parser.ts:31-37 | a failed `expectExact` reports `Syntax error. Expected '…'` at the token it read |
| ParserProperties.ModuleFails | src/parser.ts:61-76 | a failing module reports a syntax error at a token at or after where it started |
| ParserProperties.FunctionFails | src/parser.ts:78-106 | a failing declaration reports a syntax error at a token at or after where it started |
| ParserProperties.ParamsFails | src/parser.ts:84-94 | a failing parameter list reports a syntax error at a token at or after where it started |
| ParserProperties.ParamsRestFails | src/parser.ts:91-93 | the same for the parameters after the first |
| ParserProperties.ExpressionFails | src/parser.ts:108-118 | a failing expression reports a syntax error at a token at or after where it started |
| ParserProperties.AssignmentFails | src/parser.ts:120-133 | the same for an assignment |
| ParserProperties.IfFails | src/parser.ts:135-156 | the same for an `if` |
| ParserProperties.CompareFails | src/parser.ts:158-178 | the same for a comparison |
| ParserProperties.SumFails | src/parser.ts:180-200 | the same for a sum |
| ParserProperties.ProdFails | src/parser.ts:202-222 | the same for a product |
| ParserProperties.CallFails | src/parser.ts:224-258 | the same for a call |
| ParserProperties.ArgumentsFails | src/parser.ts:228-254 | the same for an argument list |
| ParserProperties.ArgumentsRestFails | src/parser.ts:243-245 | the same for the arguments after the first |
| ParserProperties.BlockFails | src/parser.ts:260-278 | the same for a block |
| ParserProperties.BlockBodyFails | src/parser.ts:266-268 | the same for the rest of a block |
| ParserProperties.ArrayLiteralFails | src/parser.ts:280-319 | the same for an array literal |
| ParserProperties.TermFails | src/parser.ts:321-357 | a term fails iff the token is not a string literal, number, module name or identifier, and then fails at that token |
| ParserProperties.ModuleNeedsFun | src/parser.ts:66-72 | at `EOF` the module is complete; any other item that does not begin with `fun` is a syntax error at that token |
| ParserProperties.ParamsShape | src/parser.ts:84-94 | the parameters are identifiers separated by commas, in order, and no comma follows the last one |
| ParserProperties.ParamsRestShape | src/parser.ts:91-93 | each further parameter is an identifier preceded by a comma |
| ParserProperties.FunctionShape | src/parser.ts:78-106 | a declaration is its name, the parameters between `(` and `)`, `=`, and one body expression |
| ParserProperties.FunctionWithoutParams | src/parser.ts:78-106 | `name() = body` gives a declaration with no parameters |
| ParserProperties.OperandAt | src/parser.ts:202-222 | a plain operand not followed by `(` or a product operator is a product by itself |
| ParserProperties.OperandExpression | src/parser.ts:108-118 | a plain operand followed by a word that ends an expression is the whole expression |
| ParserProperties.OperandCall | src/parser.ts:224-258 | a plain operand not followed by `(` is a call level by itself |
| ParserProperties.ProductBindsTighter | src/parser.ts:180-222 | `a + b * c` parses as `Core.+(a, Core.*(b, c))` |
| ParserProperties.ComparisonBindsLoosest | src/parser.ts:158-222 | `a * b < c` parses as `Core.<(Core.*(a, b), c)` |
| ParserProperties.OperatorsDoNotChain | src/parser.ts:180-200 | in `a + b + c` the sum stops after `a + b`, leaving the second operator unread |
| ParserProperties.ChainedOperatorsAreRejected | src/parser.ts:61-76 | a declaration whose body is `a + b + c` makes the module fail with a syntax error at the second operator |
| ParserProperties.ArgumentsRestKeep | src/parser.ts:243-245 | further arguments are appended, in order, after those already read |
| ParserProperties.ArgumentsShape | src/parser.ts:228-254 | an argument list ends with its closing word and is empty exactly when it starts with it; otherwise its arguments are the expressions read one after another, the first at once and each further one after a comma |
| ParserProperties.ArrayLiteralShape | src/parser.ts:280-319 | `[e1, …, en]` is a call of `List.build` with those elements, and `[]` a call with no arguments |
| ParserProperties.BlockBodyKeeps | src/parser.ts:266-268 | block expressions are collected in order until `}` |
| ParserProperties.BlockShape | src/parser.ts:260-278 | a block is located at `{` and its expressions are those read one after another until a `}`, in order; `{}` is an empty block |
| ParserProperties.IfShape | src/parser.ts:135-156 | an `if` is located at its keyword; its condition is the expression read after `(` and closed by `)`, its then branch the expression read after that `)`, and it has an else branch exactly when `else` follows the then branch, the expression read after it; otherwise it ends right after the then branch |
| ParserProperties.IfWithoutElse | src/parser.ts:145-147 | `if (c) t` not followed by `else` gives an `if` with no else branch |
| ParserRoundTrip.ExpressionParses | src/parser.ts:108-357 | every expression the grammar can express, written out as tokens, parses back to itself with the same locations, and parsing stops right after it |
| ParserRoundTrip.ExpressionRoundTrip | src/parser.ts:108-118 | a written expression followed by `EOF` is a valid token array, and it parses back to the same expression, consuming all but `EOF` |
| ParserRoundTrip.ModuleRoundTrip | src/parser.ts:61-76 | declarations written one after another and followed by `EOF` parse back to the same module, in order |
| Interpreting.CallBuiltin | src/library.ts:20 | `List.build` returns the list of its arguments |
| Interpreting.Truthy | src/interpreter.ts:43 | a condition is false exactly for `0`, `""`, `false`, `null` and `undefined`; lists and functions are true |
| Interpreting.IsCallable | src/interpreter.ts:61 | only closures and builtins are functions, and a function is truthy |
| Interpreting.Library | src/library.ts:3-25 | the library is a root context binding each builtin name, and nothing else, to that builtin; it does not bind `main` |
| Interpreting.LiteralOf | src/interpreter.ts:28-29 | a string literal evaluates to its text, a number literal to the number the host reads from its lexeme |
| Interpreting.NotCallable | src/interpreter.ts:62 | the non-function message is `Attempt to call non-function '` followed by the value as the host prints it and a closing quote |
| Interpreting.Get | src/interpreter.ts:101-111 | a failed lookup reports `Variable X is not defined` at the given location |
| Interpreting.SetVar | src/interpreter.ts:113-115 | `set` adds or overwrites the name in the one context, keeps its parent, and changes no other context |
| Interpreting.NewContext | src/interpreter.ts:98-99 | a new context is empty, has the given parent, and leaves the existing contexts as they were |
| Interpreting.Eval | src/interpreter.ts:26-91 | evaluation only adds contexts to the store |
| Interpreting.EvalBlock | src/interpreter.ts:32-41 | evaluating a block only adds contexts |
| Interpreting.EvalSeq | src/interpreter.ts:36-38 | evaluating a block's expressions one after another only adds contexts |
| Interpreting.EvalIf | src/interpreter.ts:42-52 | evaluating an `if` only adds contexts |
| Interpreting.EvalCall | src/interpreter.ts:58-68 | evaluating a call only adds contexts |
| Interpreting.EvalArgs | src/interpreter.ts:65 | there is one value per argument, and evaluating them only adds contexts |
| Interpreting.Bind | src/interpreter.ts:77-81 | binding parameters changes only the call's context and keeps its parent |
| Interpreting.Apply | src/interpreter.ts:74-84 | invoking a function only adds contexts |
| Interpreting.Declare | src/interpreter.ts:17-19 | declaring the module's functions adds no context |
| Interpreting.ModuleStore | src/interpreter.ts:13-19 | before `main` runs there are exactly two contexts: the library and the module scope |
| Interpreting.DeclareBindsClosures | src/interpreter.ts:17-19 | after the declarations, each declared name is bound in the module scope to a closure over it, for its last declaration; the library is untouched |
| Interpreting.RunModule | src/interpreter.ts:12-24 | a module that runs to the end gives `undefined`, since the value `main` returns is discarded; a module with no function named `main` fails with `Variable main is not defined` at 1:1 |
| Interpreting.Interpreter.constructor | src/interpreter.ts:14 | a new interpreter has no contexts yet |
| Interpreting.Interpreter.BuildLibrary | src/library.ts:3-25 | the library becomes a new root context binding every builtin name |
| Interpreting.Interpreter.NewChild | src/interpreter.ts:98-99 | a new empty context with the given parent is added at the end of the store |
| Interpreting.Interpreter.Set | src/interpreter.ts:113-115 | the store after `set` is the one `SetVar` defines |
| Interpreting.Interpreter.Interpret | src/interpreter.ts:26-91 | the value or error, and the store, are those `Eval` defines |
| Interpreting.Interpreter.InterpretBlock | src/interpreter.ts:32-41 | the loop over a block's expressions in a new child context gives what `Eval` defines |
| Interpreting.Interpreter.InterpretIf | src/interpreter.ts:42-52 | gives what `Eval` defines for an `if` |
| Interpreting.Interpreter.InterpretCall | src/interpreter.ts:58-68 | the callee check and the loop over the arguments give what `Eval` defines for a call |
| Interpreting.Interpreter.Invoke | src/interpreter.ts:74-84 | the parameter-binding loop in a child of the captured context gives what `Apply` defines |
| Interpreting.InterpretModule | src/interpreter.ts:12-24 | running a module gives what `RunModule` defines |
| InterpreterProperties.GetFindsNearestBinding | src/interpreter.ts:101-111 | a lookup succeeds iff some context on the chain binds the name; the value comes from the nearest one; otherwise the error is `Variable X is not defined` |
| InterpreterProperties.GetReadsOnlyChain | src/interpreter.ts:101-111 | a lookup depends only on the contexts of its chain |
| InterpreterProperties.GetAfterSet | src/interpreter.ts:113-115 | right after `set`, looking the name up in the same context gives the new value |
| InterpreterProperties.SetIsLocal | src/interpreter.ts:113-115 | `set` changes no lookup of another name, nor any lookup whose chain does not pass through the context that was set |
| InterpreterProperties.EvalKeeps | src/interpreter.ts:26-91 | evaluation in a context changes no context created before it, except that one |
| InterpreterProperties.BlockKeeps | src/interpreter.ts:32-41 | a block changes no context that existed before it, not even the enclosing one |
| InterpreterProperties.SeqKeeps | src/interpreter.ts:36-38 | the same for a block's expressions run in its context |
| InterpreterProperties.IfKeeps | src/interpreter.ts:42-52 | the same for an `if` |
| InterpreterProperties.CallKeeps | src/interpreter.ts:58-68 | the same for a call |
| InterpreterProperties.ArgsKeeps | src/interpreter.ts:65 | the same for the arguments |
| InterpreterProperties.ApplyKeeps | src/interpreter.ts:74-84 | invoking a function changes no context that existed before the call |
| InterpreterProperties.EmptyBlockIsNull | src/interpreter.ts:32-41 | an empty block evaluates to null and only adds its own empty context |
| InterpreterProperties.SeqGivesLast | src/interpreter.ts:36-38 | running one more expression gives that expression's value, evaluated after the others |
| InterpreterProperties.BlockGivesLast | src/interpreter.ts:32-41 | a block gives the value of its last expression |
| InterpreterProperties.BlockLeavesNoBindings | src/interpreter.ts:32-41 | after a block, every earlier context is unchanged, so no lookup from the enclosing scope sees its bindings |
| InterpreterProperties.AssignmentGivesItsValue | src/interpreter.ts:53-57 | an assignment gives its body's value and binds that value under its name in the current context |
| InterpreterProperties.FalsyCondition | src/interpreter.ts:42-52 | with a falsy condition, an `if` evaluates its else branch, or gives null when there is none |
| InterpreterProperties.TruthyCondition | src/interpreter.ts:42-45 | with a truthy condition, an `if` evaluates its then branch in the store the condition left, and not its else branch |
| InterpreterProperties.DeclarationBindsClosure | src/interpreter.ts:69-89 | a declaration gives a closure over the current context and binds it under its name there |
| InterpreterProperties.CallOfNonFunction | src/interpreter.ts:58-63 | when the callee is not a function, the call fails at the callee's location before any argument is evaluated |
| InterpreterProperties.ArgumentsLeftToRight | src/interpreter.ts:65 | the arguments are evaluated left to right, each in the store the previous one left |
| InterpreterProperties.ArgumentsInOrder | src/interpreter.ts:65 | the argument values are in argument order |
| InterpreterProperties.BindPositional | src/interpreter.ts:77-81 | the call's context binds each parameter to the argument at its last position, and to undefined when there is none; nothing else changes |
| InterpreterProperties.ClosureCall | src/interpreter.ts:74-84 | a call runs the body in a new context whose parent is the context the closure captured, not the caller's |
| InterpreterProperties.ParametersBindPositionally | src/interpreter.ts:77-81 | each parameter is bound in the call's context to its argument, or to undefined; extra arguments are ignored |
| InterpreterProperties.CaptureByReference | src/interpreter.ts:70-75 | inside a call, any other name is looked up in the defining scope as it is at the time of the call |
| InterpreterProperties.LaterAssignmentIsSeen | src/interpreter.ts:70-75 | a value assigned in the defining scope after the closure was made is the one the call sees |
| InterpreterProperties.LibraryHoldsBuiltins | src/library.ts:3-25 | looked up in the library alone, each builtin name gives its builtin and any other name is undefined |
| InterpreterProperties.MainIsCalled | src/interpreter.ts:21-23 | with `main` declared, running the module calls its last declaration with no arguments; it fails or runs out of fuel as that call does, and otherwise gives `undefined`, discarding the call's value |

## Left out

- `Lexer.lexFile`, `Parser.parseFile` and `Interpreter.interpretFile` read a file and resolve its path. That is I/O, so they are not modelled.
  - `LexSource` and `ParseTokens` stand in for the lexing and parsing they do.
  - `lexFile` then checks for unconsumed input. That check can never fire, since `Lexing.Lexer.Lex` consumes the whole text on success.
- Text is a sequence of Unicode characters (`string` is `seq<char>`). The source indexes JavaScript strings, whose elements are UTF-16 code units, so a character outside the Basic Multilingual Plane counts twice there and once here. For `"😀" x` the source puts `x` at 1:6 and the model at 1:5. Text made only of characters of the Basic Multilingual Plane is counted alike. The members below inherit this difference:
- Lexing.Position: counts columns in Unicode characters, not UTF-16 code units.
- Lexing.LocAt: counts columns in Unicode characters, not UTF-16 code units.
- PositionCountsLines (`Lexing.PositionCountsLines`): counts the characters since the last newline in Unicode characters, not UTF-16 code units.
- Here (`Lexing.Lexer.Here`): its column is counted in Unicode characters, not UTF-16 code units.
- EatString (`Lexing.Lexer.EatString`): steps through a string literal one Unicode character at a time, so its column after the literal, and the end position in the unclosed-literal message, count such characters.
- InvalidCharacterIsRejected (`LexerProperties.InvalidCharacterIsRejected`): names the whole invalid character. For a character outside the Basic Multilingual Plane, the source's message holds only its first UTF-16 code unit, a lone surrogate.
- `Parsing.Parser`: every method requires `Valid()`. That is, the token array is non-empty and ends with an `EOF` token, and the index is before it.
  - The source reads past the array or throws `Invalid token stream. No EOF!` otherwise. That case is not modelled.
  - `Parsing.TokenizeIsWellFormed` proves that every token array the lexer produces meets the requirement.
- Number literals keep their lexeme in the tree. `parseFloat` is the host's `Runtime.number`.
  - Its `catch` cannot fire, so there is no `Invalid number literal` error.
  - JavaScript floating point (NaN, infinities, rounding) is not modelled. Numbers are `real`.
  - A NaN condition, which JavaScript treats as falsy, is therefore not modelled either.
- The builtins other than `List.build` (arithmetic, comparison, `List.length`, `List.add`, `println`) call the host: `Runtime.call`. They are JavaScript operators with loose coercions and console output.
  - `List.build` is modelled exactly.
  - `String(value)` in the non-function message is `Runtime.show`.
- Interpreting.Eval: evaluation takes fuel, spending one unit per closure call, and ends in `Exhausted` when it runs out. Programs that do not terminate, and JavaScript's stack overflow, are therefore not modelled.
- JavaScript `TypeError`s raised by builtins on values of the wrong kind are not modelled. They come from the host.
- Interpreting.RunModule: when `main` is bound but not callable, the source raises a `TypeError`; the model reports `main is not a function` at 1:1 instead.
  - That branch cannot be reached from a parsed module, because `main` can only be bound to a closure.
- Interpreting.Get: follows a parent only when its index is smaller than the child's; the source has no such test. Every context the model itself creates has an older parent, but no invariant proves that for every store. A host `Runtime.call` that returned a closure over a context created later would break it. A call of that closure would then create a context whose parent is younger, and a lookup there stops at that parent and reports the variable undefined, where the source would go on searching.
- Closures are store indices with their parameters and body, not host function objects. So two closures are equal when they have the same context, parameters and body, rather than by identity.
- Lists are sequences of values, not JavaScript arrays. So two lists with the same elements are equal, while `===` compares arrays by identity and two separately built arrays are never equal.
  - Both differences are visible only through builtins such as `Core.==` (JavaScript's `===`), which come from the host.
- The store is never collected, unlike contexts that the JavaScript garbage collector frees.
