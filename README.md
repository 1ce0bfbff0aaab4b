# slang: scanner, Pratt parser, evaluator and statements in Dafny

This project models the core of slang, a small interpreted language
written in Rust. It covers these parts:

- The character scanner (`src/scanner.rs`). It turns program text into
  tokens, tracks the line number, skips comments, reads strings, numbers,
  identifiers and keywords, and drops layout tokens.
- The older scanner and the `run` driver of `src/main.rs`. `run` rejects a
  program when any of its tokens is Unknown.
- The Pratt parser (`src/parser.rs`). It has a token stack (`Lexer`), the
  binding-power loop `expr_bp`, and the prefix `Display` of trees.
- The atoms (`src/eval/atom.rs`), with `+ - * /` and display.
- The tree-walking evaluator `eval_expr` (`src/eval.rs`).
- The interpreter state (`src/statement.rs`). This is a stack of scopes
  with `get_variable`, `modify_variable` and `declare`, plus the execution
  of expression, print, declaration, `if` and `while` statements.

The modules are:

- `Results`: Option and Result.
- `Ast`: Atom, S and Op.
- `Tokens`: token kinds and tokens.
- `Atoms`: the atom operators.
- `Env`: the meaning of lookup and update on a scope stack.
- `Eval`: `eval_expr` as the function `Eval.Eval`.
- `Parser`: the `Lexer` class, the methods `ExprBp` and `Expr`, and the
  functions `ParseBp`/`ParseLoop` that specify them.
- `Statement`: the class `State`, whose methods update the scope stack in
  place, and the functions `Exec`, `ExecWhile`, `ExecBlock` and
  `DeclareSpec` that specify them.
- `Scanner`: `src/scanner.rs`. Its methods follow the source's iterator
  loop and are proved equal to the functions `StepAt`, `Scan` and
  `FinalLine`.
- `LegacyScanner`: `src/main.rs`.
- `Examples`: small whole-pipeline examples. `ParseThenEvaluate` starts from the tokens of `3 + 5 * 4`, not from its text. `IfElseProgram` and `BlockScoping` are programs written here to show the results that the statement tests expect. The `.slang` test files those tests read are not part of this model.

Panics of the source (`panic!`, `todo!`, `unimplemented!`, `unwrap` on
`None`) are `Err` results. The code after the panic point is not modelled.

## Model

| member | source | states |
|---|---|---|
| Atoms.Arith | src/eval/atom.rs:10-60 | The four operators share one shape: two numbers succeed with the combined number, a string on either side is the todo case, and any other pair has no case. |
| Atoms.Add | src/eval/atom.rs:10-21 | Succeeds exactly on two numbers and gives their sum; any string operand is the todo case. |
| Atoms.Sub | src/eval/atom.rs:23-34 | Succeeds exactly on two numbers and gives their difference; any string operand is the todo case. |
| Atoms.Mul | src/eval/atom.rs:36-47 | Succeeds exactly on two numbers and gives their product; any string operand is the todo case. |
| Atoms.Div | src/eval/atom.rs:49-60 | Succeeds exactly on two numbers with a non-zero divisor and gives the quotient; a zero divisor is a division error; any string operand is the todo case. |
| Atoms.Display | src/eval/atom.rs:62-69 | A string atom displays as its text, without quotes. |
| Atoms.ArithKeepsVariant | src/eval/atom.rs:10-60 | Arithmetic on two numbers always succeeds (division when the divisor is non-zero), and the result is again a number. |
| Atoms.EqualityIsStructural | src/eval/atom.rs:4-8 | Derived equality: two strings are equal iff their texts are; atoms of different variants are never equal. |
| Env.Innermost | src/statement.rs:23-28 | Finds the index of the innermost scope that holds the name; None exactly when no scope holds it. |
| Env.Lookup | src/statement.rs:23-28 | get_variable reads the binding of the innermost scope that holds the name; None iff the name is unbound. |
| Env.Outermost | src/statement.rs:30-37 | Finds the index of the outermost scope that holds the name; None exactly when no scope holds it. |
| Env.Modified | src/statement.rs:30-37 | modify_variable overwrites the name only in the outermost scope that holds it; every other scope is unchanged, and an unbound name changes nothing. |
| Env.HolderUnique | src/statement.rs:23-37 | The innermost holder of a name is unique, and so is the outermost holder. |
| Env.ShadowedReadAndWriteDiffer | src/statement.rs:23-37 | When two scopes hold a name, the scope modify_variable writes lies strictly outside the scope get_variable reads. |
| Env.ShadowedModifyInvisible | src/statement.rs:23-37 | Under shadowing, the new value lands in the outermost holder, but a later lookup still reads the old innermost value. |
| Env.UnshadowedModifyVisible | src/statement.rs:23-37 | With a single holder, the next lookup reads the value modify_variable wrote. |
| Env.ModifiedKeepsNames | src/statement.rs:30-37 | modify_variable never adds or removes a name in any scope. |
| Eval.EvalAll | src/eval.rs:20-23 | Evaluating an operand list gives one value per operand. |
| Eval.Eval | src/eval.rs:9-51 | Definition of eval_expr (no contract of its own; the Eval lemmas state its properties). <br>• A leaf goes to EvalAtom. <br>• + - * / combine the first two operand values through Atoms. <br>• One-operand Minus and Negate apply negate. <br>• The comparisons compare both values. <br>• Access applies to the left value and the right tree. <br>• Mod, And, Or and Indexing go through their Prims. Indexing then evaluates the result. <br>• Any other operator/operand-count pair is the invalid-expression error. |
| Eval.EvalAtom | src/eval.rs:12-25 | Definition of leaf evaluation: <br>• an identifier reads Lookup, and an unbound name is the undefined-variable error; <br>• a function call goes through the call of Prims, which may change the scopes, and its failure is an error; <br>• an array is evaluated element by element; <br>• any other atom is itself. |
| Eval.EvalIdentifier | src/eval.rs:13-18 | An identifier evaluates to its innermost binding and leaves the scopes unchanged; it is the undefined-variable error exactly when the name is unbound. |
| Eval.EvalLiteral | src/eval.rs:24 | Strings, numbers and booleans evaluate to themselves. |
| Eval.EvalReadOnly | src/eval.rs:9-51 | When function calls leave the scopes unchanged, every successful evaluation does too. |
| Eval.EvalAtomReadOnly | src/eval.rs:12-25 | The same for a leaf atom: identifiers, arrays and literals change no scope when calls change none. |
| Eval.EvalAllReadOnly | src/eval.rs:20-23 | With read-only calls, an operand list evaluates iff each operand does, in the original scopes, and the i-th value is the value of the i-th operand. |
| Eval.ArrayElementwise | src/eval.rs:20-23 | An array evaluates iff all its elements do; the result is an array of the same length whose i-th element is the value of the i-th element. This holds when function calls only read the state. |
| Eval.EvalArithmetic | src/eval.rs:29-33 | Binary + - * / evaluate the first operand, then the second in the scopes the first left, and combine the two numbers; division needs a non-zero divisor. |
| Eval.ExtraOperandsIgnored | src/eval.rs:29-33 | A third or later operand of + - * / is never evaluated. |
| Eval.UnaryMinusIsNegate | src/eval.rs:31-34 | A Minus with one operand behaves exactly like Negate: it evaluates the operand and applies negate. |
| Eval.ComparisonsYieldBool | src/eval.rs:35-38 | A comparison needs exactly two operands, and a successful one yields a boolean. |
| Eval.NotEqualNegatesEqual | src/eval.rs:35-38 | != gives the negation of ==, == is the equality of the two values, and a > b is b < a. |
| Eval.InvalidArity | src/eval.rs:47 | An operator with an operand count that has no case is the invalid-expression error. |
| Eval.IndexingEvaluatesResult | src/eval.rs:42-45 | Indexing evaluates target and index, then evaluates the atom that index returned. |
| Eval.AccessKeepsRightUnevaluated | src/eval.rs:46 | Access evaluates only its left operand and hands the right one over as a tree. |
| Parser.OpSymbolInjective | src/parser.rs:23-36 | Distinct operators display as distinct symbols. |
| Parser.OpSymbol | src/parser.rs:23-36 | Definition: + - * / display as in the source; the other operators get names of this model's own. |
| Parser.Display | src/parser.rs:38-51 | Definition: a leaf displays as its atom. An application displays as "(", the operator, each operand preceded by one space, then ")". |
| Parser.DisplayArgs | src/parser.rs:44-46 | Definition: the operands, each preceded by one space. |
| Parser.DisplayParens | src/parser.rs:38-51 | When no leaf shows a parenthesis, the display has exactly one "(" and one ")" per application. |
| Parser.DisplayArgsParens | src/parser.rs:44-46 | The same count for the operands displayed after the operator. |
| Parser.DisplayBinary | src/parser.rs:38-51 | A binary node displays as "(op x y)": operator and operands separated by single spaces. |
| Parser.DisplayExample | src/parser.rs:38-51 | The tree of 3 + 5 * 4 displays as "(+ 3 (* 5 4))". |
| Parser.Reverse | src/parser.rs:59 | Reversal keeps the length and reads the sequence back to front. |
| Parser.Lexer.Remaining | src/parser.rs:53-55 | Definition: the tokens still to be read, in reading order. This is the reverse of the stored vector. |
| Parser.Lexer.constructor | src/parser.rs:58-61 | Lexer::new stores the tokens reversed, so they are read in their original order. |
| Parser.Lexer.Next | src/parser.rs:63-67 | next pops the next token, or gives EOF on an empty stack and leaves it empty. |
| Parser.Lexer.Peek | src/parser.rs:69-74 | peek gives the next token, or EOF, and changes nothing. |
| Parser.ReadAll | src/parser.rs:53-74 | Reading a fresh lexer to the end yields the tokens in their original order, and then EOF. |
| Parser.Classify | src/parser.rs:90-97 | Only + - * / tokens become infix operators. |
| Parser.ClassifyCases | src/parser.rs:90-97 | The loop stops exactly at EOF, WhiteSpace and NewLine, and takes an operator exactly at + - * and /. |
| Parser.InfixBindingPower | src/parser.rs:113-118 | Definition: + and - bind (1, 2); * and / bind (3, 4). Parser.BindingPowerOrder states what these pairs mean. |
| Parser.ParseBp | src/parser.rs:81-111 | A successful parse consumes at least one token. |
| Parser.ParseLoop | src/parser.rs:88-108 | The loop never adds tokens to what is left. |
| Parser.ExprBp | src/parser.rs:81-111 | expr_bp on the lexer gives the tree (or error) of ParseBp on its remaining tokens and leaves exactly the unconsumed rest on the stack. |
| Parser.Expr | src/parser.rs:77-79 | expr is expr_bp with minimum binding power 0. |
| Parser.LeadingTokenMustBeLiteral | src/parser.rs:82-86 | Every (sub)expression starts with a literal token; any other first token, EOF included, is the invalid-token error naming it. |
| Parser.LoopStops | src/parser.rs:88-102 | The loop returns without consuming at EOF, WhiteSpace or NewLine, and before an operator whose left power is below the minimum; any other non-operator token is the unimplemented error. |
| Parser.BindingPowerOrder | src/parser.rs:113-118 | Each operator's right power exceeds its left one, and comparing powers orders operators by precedence level. |
| Parser.ParseBpShape | src/parser.rs:81-111 | A successful parse yields a binary + - * / tree ordered by precedence and left associativity. Its in-order reading is exactly the tokens consumed, and the rest is a suffix that ends an expression of that binding power. |
| Parser.ParseLoopShape | src/parser.rs:88-108 | The loop keeps that shape from its current left-hand side on. |
| Parser.LoopStep | src/parser.rs:99-107 | One iteration that takes an operator keeps that shape. |
| Parser.LeavesExceedOperators | src/parser.rs:107 | A parsed tree has one more leaf than operators. |
| Parser.ParseTokenCount | src/parser.rs:81-111 | A successful parse consumes an odd number of tokens: twice the number of operators plus one. |
| Parser.NumberStarts | src/parser.rs:82-86 | A number token starts the loop with that number as its left-hand side. |
| Parser.LoopAtEnd | src/parser.rs:91 | With no tokens left, the loop returns what it has built. |
| Parser.LoopYields | src/parser.rs:99-102 | An operator that binds less tightly than the minimum is left for the caller. |
| Parser.LoopTakes | src/parser.rs:104-107 | An operator that binds tightly enough takes the parse of what follows as its right operand. |
| Parser.Precedence | src/parser.rs:113-118 | a lo b hi c groups the higher-level operator first, as lo(a, hi(b, c)). |
| Parser.PrecedenceLeft | src/parser.rs:113-118 | a hi b lo c groups as lo(hi(a, b), c). |
| Parser.LeftAssociative | src/parser.rs:99-107 | Operators of one level associate to the left. |
| Parser.ThreeTerms | src/parser.rs:99-107 | a o1 b o2 c groups to the left whenever o2's left power is below o1's right power. |
| Statement.State.Default | src/statement.rs:14-20 | The default state is one empty scope. |
| Statement.DeclareSpec | src/statement.rs:39-71 | Definition of declare over a scope stack (the method State.Declare is proved equal to it): <br>• the variant check reads the innermost binding; <br>• a bound name is overwritten through Env.Modified; <br>• an unbound aliased name is inserted into the last scope; <br>• the errors are mismatch, uninitialized and no scope; <br>• the update applies to the scopes the evaluation left. |
| Statement.Exec | src/statement.rs:108-145 | Definition of execute (State.Execute is proved equal to it): <br>• an expression statement yields its value; <br>• print and declaration yield nothing; <br>• if evaluates the condition and runs one block; <br>• while goes to ExecWhile; <br>• evaluation failures pass through. |
| Statement.ExecWhile | src/statement.rs:133-143 | Definition of the loop: the condition is evaluated before every iteration, and the loop ends with nothing once it is not Bool(true). Each iteration runs the block and spends one unit of fuel. |
| Statement.ExecBlock | src/statement.rs:128-130 | Definition of a block under the stated assumption: push an empty scope, run the statements, pop the scope. The result is the last statement's result. |
| Statement.ExecStmts | src/statement.rs:128-130 | Definition: the statements run in order, each in the scopes the previous one left, and the result is that of the last one run. |
| Statement.State.GetVariable | src/statement.rs:23-28 | The binding from the innermost scope that holds the name; None iff the name is unbound. |
| Statement.State.ModifyVariable | src/statement.rs:30-37 | The loop over the scopes, outermost first, leaves exactly the scopes Env.Modified describes. |
| Statement.State.Declare | src/statement.rs:39-71 | declare leaves the scopes DeclareSpec gives: <br>• a bound name is checked against the variant of its innermost binding, then updated through modify_variable; <br>• an unbound aliased name is inserted into the last scope; <br>• the errors are a type mismatch, an uninitialized name, and no scope. |
| Statement.State.Execute | src/statement.rs:108-145 | execute returns the value Exec gives and leaves its scopes. |
| Statement.State.ExecuteWhile | src/statement.rs:133-143 | The while loop re-evaluates the condition before each iteration and agrees with ExecWhile. |
| Statement.State.ExecuteBlock | src/statement.rs:128-130 | A block runs in a fresh inner scope that is popped afterwards, and agrees with ExecBlock. |
| Statement.ResultShapes | src/statement.rs:111-119 | An expression statement yields its value; print and declaration statements yield nothing; each fails exactly when its evaluation or declare fails. |
| Statement.IfChoosesBlock | src/statement.rs:120-132 | if runs the then-block, in the scopes the condition's evaluation left, exactly when the condition is Bool(true). Any other value runs the else-block, and a failing condition is the failure. |
| Statement.WhileEndsOnFalse | src/statement.rs:139-142 | A loop that finishes yields nothing, and its condition is not Bool(true) in the scopes it leaves. This holds when function calls only read the state. |
| Statement.WhileSkipsBody | src/statement.rs:139-142 | A condition that is not Bool(true) at the start means the body never runs. |
| Statement.WhileTrueNeverEnds | src/statement.rs:139-141 | while true never finishes, whatever its body. |
| Statement.DeclareBound | src/statement.rs:45-58 | For a bound name, a failing right-hand side is the failure. Otherwise the innermost binding's variant decides. A match or the alias flag stores the value through modify_variable, in the scopes the evaluation left. Anything else is a type mismatch. |
| Statement.DeclareUnbound | src/statement.rs:59-69 | For an unbound name: <br>• without alias, it is an uninitialized-variable error and nothing is evaluated; <br>• with alias, a failing right-hand side is the failure; <br>• with alias, when the evaluation leaves no scope, it is the no-scope error; <br>• otherwise the name is bound only in the last scope the evaluation left, and the next read finds it. |
| Statement.DeclareKeepsDepth | src/statement.rs:39-71 | declare never changes the number of scopes. This holds when function calls only read the state. |
| Statement.DeclareBoundModifies | src/statement.rs:46-49 | A successful declare on a bound name evaluated its right-hand side. The result is modify_variable with the new value, applied to the scopes that evaluation left. |
| Statement.ShadowedDeclareInvisible | src/statement.rs:41-49 | Under shadowing, a successful declare leaves the name reading as before. This holds when function calls only read the state. |
| Statement.UnshadowedDeclareVisible | src/statement.rs:46-49 | Without shadowing, a successful declare is visible to the next read. This holds when function calls only read the state. |
| Statement.DeclareGrowsLast | src/statement.rs:39-71 | declare binds new names only in the innermost scope. This holds when function calls only read the state. |
| Statement.ExecGrowsLast | src/statement.rs:108-145 | A statement keeps the number of scopes and binds new names only in the innermost scope. This holds when function calls only read the state. |
| Statement.ExecWhileRestores | src/statement.rs:133-143 | A loop leaves every scope with exactly the names it had. This holds when function calls only read the state. |
| Statement.ExecBlockRestores | src/statement.rs:128-130 | Scope isolation: after a block every scope holds the same names as before, so the block's own declarations are gone. Every outer scope is exactly as the block's statements left it. This holds when function calls only read the state. |
| Statement.ExecBlockKeepsOuterValues | src/statement.rs:128-130 | A name bound outside a block reads, after the block, the value the block's statements left for it: an outer variable the block reassigned keeps its new value. This holds when function calls only read the state. |
| Statement.ExecKeepsNotShadowed | src/statement.rs:39-71 | A statement never makes the innermost scope shadow a name bound further out: declare of a bound name writes where it is bound, and only an unbound name is inserted. This holds when function calls only read the state. |
| Env.LookupPastInner | src/statement.rs:23-28 | Dropping an innermost scope that does not hold the name leaves its lookup unchanged. |
| Scanner.TakeWhileEnd | src/scanner.rs:10-12 | peeking_take_while stops at the first character that fails the predicate, or at the end; every character before it passes. |
| Scanner.TakeWhile | src/scanner.rs:10-12 | The loop that advances over the passing characters stops where TakeWhileEnd says. |
| Scanner.Keyword | src/scanner.rs:56-66 | A lexeme is a keyword exactly when it is one of the nine keywords. |
| Scanner.StepAt | src/scanner.rs:77-141 | next_token gives None only at the end of input and otherwise consumes at least one character; only a NewLine advances the line. |
| Scanner.StringStep | src/scanner.rs:9-18 | Definition of scan_string: the text up to the next quote. A closed string is a Str token ending after the quote; an unclosed one is an Unknown token of the rest of the input. |
| Scanner.NumberStep | src/scanner.rs:21-33 | Definition of scan_number: the first digit and the following digits and dots. The lexeme is a Number when parseNum accepts it, Unknown otherwise. |
| Scanner.IdentifierStep | src/scanner.rs:35-67 | Definition of scan_identifier: the first letter and the following letters, digits and '_'. A keyword gives its token, anything else an Identifier. |
| Scanner.Scan | src/scanner.rs:73-148 | Definition of scan_tokens: next_token repeated to the end of input, keeping every token except WhiteSpace and Hash. |
| Scanner.FinalLine | src/scanner.rs:75-84 | Definition: the line counter after next_token has run to the end of input. |
| Scanner.ScanString | src/scanner.rs:9-18 | scan_string gives the step StringStep describes. |
| Scanner.ScanNumber | src/scanner.rs:21-33 | scan_number gives the step NumberStep describes. |
| Scanner.ScanIdentifier | src/scanner.rs:35-67 | scan_identifier gives the step IdentifierStep describes. |
| Scanner.SkipComment | src/scanner.rs:69-71 | skip_comment stops at the next line feed, or at the end. |
| Scanner.NextToken | src/scanner.rs:77-141 | The closure's branches give the step StepAt describes. |
| Scanner.ScanTokens | src/scanner.rs:73-148 | The loop collects exactly Scan of the whole input and ends with the line counter FinalLine gives. |
| Scanner.ScanDropsLayout | src/scanner.rs:145-147 | The output never holds a WhiteSpace or a Hash token. |
| Scanner.NewLineStep | src/scanner.rs:81-84 | A line feed or a carriage return is one NewLine token and advances the line by one. |
| Scanner.LineCountsNewLines | src/scanner.rs:81-84 | The final line counter is the start line plus the number of NewLine tokens. |
| Scanner.NewLinesMatchText | src/scanner.rs:81-84 | Outside strings and comments, every line feed and carriage return becomes one NewLine, so "\r\n" counts as two lines. |
| Scanner.CommentSkipped | src/scanner.rs:93-96 | A comment runs up to the next line feed and adds nothing to the output; that line feed still yields a NewLine. |
| Scanner.TwoCharOperators | src/scanner.rs:97-126 | Followed by '=', each of + - ! < > = forms the two-character token: +=, -=, !=, <=, >= or ==. |
| Scanner.OneCharOperators | src/scanner.rs:97-126 | Not followed by '=', each of + - ! < > = is a one-character token. |
| Scanner.IdentifierToken | src/scanner.rs:35-67 | An identifier is the longest run of letters, digits and '_' that starts with a letter. A keyword becomes its keyword token; any other lexeme becomes an Identifier with that lexeme and line. |
| Scanner.NumberToken | src/scanner.rs:21-33 | A number lexeme is the longest run of digits and '.' that starts with a digit. It becomes a Number carrying the parsed value, or Unknown when it does not parse. |
| Scanner.QuoteStartsString | src/scanner.rs:127 | A quote starts scan_string after it. |
| Scanner.StringToken | src/scanner.rs:9-18 | A string runs to the next quote; the token carries the text between the quotes, and the closing quote is consumed. |
| Scanner.UnclosedString | src/scanner.rs:9-18 | Without a closing quote, the rest of the input becomes one Unknown token. |
| Scanner.UnknownCharacter | src/scanner.rs:131-138 | A character that starts no token becomes its own Unknown token, tagged with the line, and scanning goes on after it. |
| LegacyScanner.StepAt | src/main.rs:59-101 | next_token gives None at the end of input and at an unrecognised last character, otherwise consumes at least one character; it never produces NewLine. |
| LegacyScanner.StringStep | src/main.rs:45-53 | Definition of scan_string as written: after the text up to the quote, the quote is consumed and then one more character. The result is a Str when that character exists, Unknown otherwise. |
| LegacyScanner.Scan | src/main.rs:55-106 | Definition of scan_tokens: next_token repeated until it gives None, keeping every token except WhiteSpace. |
| LegacyScanner.ScanString | src/main.rs:45-53 | scan_string as written gives the step StringStep describes. |
| LegacyScanner.NextToken | src/main.rs:59-101 | The closure's branches give the step StepAt describes. |
| LegacyScanner.ScanTokens | src/main.rs:55-106 | The loop collects exactly Scan of the whole input. |
| LegacyScanner.FirstUnknown | src/main.rs:12 | find returns the first Unknown token, or None when there is none. |
| LegacyScanner.Run | src/main.rs:10-18 | run fails iff some token is Unknown, and the error names the first one's lexeme and line. Otherwise it yields every token kind in order. |
| LegacyScanner.LineBreakIsWhiteSpace | src/main.rs:73-76 | A line break advances the line but becomes WhiteSpace, which is dropped. |
| LegacyScanner.NoLayoutTokens | src/main.rs:105 | The output holds no WhiteSpace and no NewLine token. |
| LegacyScanner.HashKept | src/main.rs:72 | '#' is a Hash token that stays in the output, and what follows it is scanned as usual. |
| LegacyScanner.TwoCharOperators | src/main.rs:77-96 | Followed by '=', each of ! < > = forms the two-character token: !=, <=, >= or ==. |
| LegacyScanner.ArithmeticOneChar | src/main.rs:69-71 | + - and * are always one-character tokens, even before '='. |
| LegacyScanner.Unrecognised | src/main.rs:98-99 | An unrecognised character followed by another one is an Unknown token with an empty lexeme. As the last character it ends scanning and is dropped. |
| LegacyScanner.StringSwallowsNext | src/main.rs:45-53 | Compared with src/scanner.rs, a string closed before the last character gives the same token but consumes one more character. |
| LegacyScanner.StringAtEndUnknown | src/main.rs:45-53 | A string closed by the last character is Unknown, where src/scanner.rs gives Str. |
| LegacyScanner.ClosedStringAtEndRejected | src/main.rs:45-53 | The input "ab", quotes included, scans to one Unknown token, and run rejects it. |
| LegacyScanner.CharAfterStringLost | src/main.rs:45-53 | The input "a"+( scans to the string and "(": the '+' is lost. |
| Examples.ParseThenEvaluate | src/eval.rs:75 | 3 + 5 * 4 parses with * grouped first and evaluates to 23. |
| Examples.IfElseProgram | src/statement.rs:182 | With a false condition, the else-branch's "goodbye" is the result, and the block's scope is gone afterwards. |
| Examples.BlockScoping | src/statement.rs:183 | An outer variable assigned inside a block keeps its new value; a variable declared inside the block is gone afterwards. |
| Examples.UninitializedProgram | src/statement.rs:67-69 | Declaring an unbound name without alias is the uninitialized-variable error. |
| Examples.CarriageReturnLineFeed | src/scanner.rs:81-84 | "\r\n" scans to two NewLine tokens and ends on line 3. |
| Examples.MaximalMunch | src/scanner.rs:44-66 | "iffy" is one Identifier, not the keyword if. |
| Examples.IffyIsIdentifier | src/scanner.rs:44-66 | scan_identifier on "iffy" gives one Identifier token that ends after the whole word. |

## Left out

- I/O: printing in `PrintStmt`, printing in `run`, and the file and prompt drivers (`run_file`, `run_prompt`, `main`) are not modelled. A print statement only evaluates its expression.
- Floating point: `Num` is a real number, so `f32` rounding is not modelled. Formatting of non-string atoms is a `format` parameter.
- Atoms.Div: dividing by zero is an `Err`, while `f32` gives an infinity or NaN.
- Several operations are fields of a `Prims` parameter, because their code (`src/eval/function.rs` and the rest of the atom operations) is not part of this model:
  - function calls (`eval_function_call`);
  - negate, modulus, and, or;
  - indexing and access;
  - the ordering behind `<` and `>`.
- Eval.Eval: the re-evaluation after Indexing uses fuel, because that evaluation need not terminate. Running out of fuel is `OutOfFuel`; the source has no bound.
- Statement.Exec: while loops use fuel, and running out is `OutOfFuel`. The source loops forever instead; Statement.WhileTrueNeverEnds shows no amount of fuel finishes `while true`.
- Block (`crate::block`) is not part of this model. Its behaviour is an assumption: push an empty scope, run the statements in order, pop the scope, and the result is the last statement's result.
- Numbers: `scan_number` parses with `parse::<f32>` and then `parse::<isize>`. Here that parse is a parameter `parseNum`, and the lexeme rule around it is modelled.
- Character classes: `is_numeric`, `is_alphabetic`, `is_alphanumeric` and `is_whitespace` are their ASCII subsets. Non-ASCII letters and digits are not modelled.
- Tokens: the boxed literal of a token is the closed type `LiteralValue`. The `TokenType.Literal` kind carries the atom the parser reads, since `src/token.rs` shows no other way to attach it.
- The `Int` and `Float` atoms of the evaluator's tests are not in `src/eval/atom.rs`; the examples use `Num`.
- Parser.OpSymbol: the source displays only the four arithmetic operators. The names of the other operators are this model's own.
- Panics of the parser and of `declare`, and `todo!()` in the atom operators, are `Err` values. Nothing after the panic is modelled.
- Statement.WhileEndsOnFalse, Statement.DeclareKeepsDepth, Statement.DeclareGrowsLast, Statement.ExecGrowsLast, Statement.ExecWhileRestores, Statement.ExecBlockRestores, Statement.ExecBlockKeepsOuterValues, Statement.ExecKeepsNotShadowed, Statement.UnshadowedDeclareVisible and Eval.ArrayElementwise are stated only when function calls leave the scopes unchanged. A call through Prims may add scopes or names, and then these properties need not hold.
- Statement.ShadowedDeclareInvisible: holds only when function calls leave the scopes unchanged. It states only that the read is unchanged, not where the write lands. Env.ShadowedModifyInvisible states that.

## Findings

| source | as written | input that shows it | evidently intended | confidence | as-written member | corrected member |
|---|---|---|---|---|---|---|
| src/main.rs:45-53 | `take_while` also consumes the closing quote, so the following `source.next()` consumes the character after the string. | `"a"+(` scans to the string and `(`, losing `+` (LegacyScanner.CharAfterStringLost). `"ab"`, quotes included, scans to one Unknown token and `run` rejects it (LegacyScanner.ClosedStringAtEndRejected). | Stop before the closing quote and consume only the quote, as `src/scanner.rs:9-18` does with `peeking_take_while`. The string token then ends at its quote, and a string at the end of input is a Str. | medium, not executed | LegacyScanner.StringStep | Scanner.StringStep |
