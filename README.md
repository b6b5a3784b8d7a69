# Two stack calculators, modelled and verified in Dafny

The repository holds two stand-alone infix calculators for `+ - * /`, parentheses, decimal
literals and whitespace. Both resolve precedence with stacks instead of a syntax tree.

- `CommandLineCalculator.java`: a one-pass evaluator. `evaluateExpression` scans the text once.
  Literals are read in place by an inner loop. It keeps an operand stack and an operator stack,
  and applies operators through `calculate` as the priority table (`getPriority`,
  `isOperator`, the constants `ADD` … `RIGHT_PAREN`) dictates.
- `Calculator.java`: a two-stage evaluator. `validateInput` checks the character set.
  `infixToPostfix` rewrites the text as space-separated postfix (shunting-yard), and
  `evaluatePostfix` evaluates that postfix text with one stack and a literal buffer.

The project has these modules:

| file | module | contents |
|---|---|---|
| `results.dfy` | `Results` | `Result`; every Java exception becomes an `Err` of a typed error kind |
| `chars.dfy` | `Chars` | ASCII digits and whitespace, the four operators and their arithmetic, the decimal value of a digit string, exact powers of ten |
| `seqstack.dfy` | `SeqStack` | stacks as sequences whose last element is the top, and small facts about them |
| `command_line_calculator.dfy` | `CommandLineCalculator` | the one-pass evaluator |
| `calculator.dfy` | `Calculator` | validation, conversion to postfix, postfix evaluation |
| `reference.dfy` | `Reference` | a recursive semantics of fully parenthesised integer expressions |
| `agreement.dfy` | `Agreement` | both evaluators against the reference, and against each other |

The model states each behaviour as functions over values (`Scan`, `Calc`, `Reduce`, `Unwind`,
`Drain`, `ScanNumber`, `PostfixFrom`, `PopNotLower`, `PopToParen`, `Flush`, `EvalFrom`,
`PopApply`, `ParseDouble`), about which the lemmas are proved. Every Java method that works
on a stack (`evaluateExpression` and its inner loops, `calculate`, `infixToPostfix` and
`evaluatePostfix` with its operator branch) is also modelled as a Dafny method over the same
stacks, with `while` loops where the Java has them, and each is proved equal to its function:
- the loops `EvaluateExpression`, `ReadNumber`, `ApplyWhileNotLower`, `ApplyUntilParen`,
  `ApplyRemaining`, `InfixToPostfix` and `EvaluatePostfix`;
- the straight-line `Calculate` and `ApplyOperator`.

The table lookups and tests `getPriority`, `isOperator`, `precedence` and `validateInput`,
and the library call `Double.parseDouble`, change no state and are modelled as functions and
predicates only (`GetPriority`, `IsOperator`, `Precedence`, `ValidateInput`, `ParseDouble`).

The Java code is modelled as written, including its oddities:
- In the one-pass evaluator, a `)` with no `(` applies what is pending and is otherwise ignored.
  A `(` that is never closed is left for the final loop. When two operands remain below it,
  `calculate` rejects it as an unknown operator (`1(2`). When the pending operator above it
  has consumed one of them, only one operand is left and the error is a malformed expression
  (`(1+2`).
- Each fractional digit divides the whole value again by `10^k`, where `k` counts the
  fractional digits so far. So `1.5` is 1.5, but `1.25` is 0.17 and `1.2.3` is 0.15. A lone
  `.` is the number 0.
- In the two-stage evaluator, a `)` with no `(` pops an empty stack, which is an error.
- An unclosed `(` is emitted into the postfix. The evaluator then pops two values for it and
  pushes nothing, because its `switch` has no default.
- A literal is pushed only when whitespace follows it. So input `5` alone ends with an
  empty-stack error.

Numbers are exact `real`s.

## Model

| member | source | states |
|---|---|---|
| CommandLineCalculator.GetPriority | CommandLineCalculator.java:103-120 | definition; its properties are stated by `PriorityOrder` |
| CommandLineCalculator.IsOperator | CommandLineCalculator.java:98-100 | definition; its properties are stated by `PriorityOrder` and `Agreement.OperatorIsSymbol` |
| CommandLineCalculator.Reduce | CommandLineCalculator.java:82-84 | definition; its properties are stated by `ReduceShape`, `ReduceKeepsLowerOperands`, `ReduceStopsAtParen` and `ApplyWhileNotLower` |
| CommandLineCalculator.Unwind | CommandLineCalculator.java:74-76 | definition; its properties are stated by `UnwindShape`, `UnwindPair` and `ApplyUntilParen` |
| CommandLineCalculator.CloseParen | CommandLineCalculator.java:72-79 | definition; its properties are stated by `CloseParenShape` and `CloseParenPair` |
| CommandLineCalculator.Finish | CommandLineCalculator.java:90-94 | definition; its properties are stated by `Drain`, `FinishPair`, `FinishTriple`, `FinishStrayParen` and `FinishStrayGroup` |
| CommandLineCalculator.Scan | CommandLineCalculator.java:45-92 | definition; its properties are stated by `LiteralStep`, `OperatorStep`, `OpenStep`, `CloseStep`, `SkipsOtherCharacters` and `EvaluateExpression` |
| CommandLineCalculator.Evaluate | CommandLineCalculator.java:41-95 | definition; its properties are stated by `ThreeOperands`, `Parenthesised`, `UnmatchedClose`, `TwoDigitLeft`, the examples, `EvaluateExpression` and `Agreement.OnePassAgrees` |
| CommandLineCalculator.PriorityOrder | CommandLineCalculator.java:7-12 | `*` `/` rank 2 and `+` `-` rank 1, exactly; a priority of at least 1 is the same as being one of the four operators; `(` ranks 0 and `)` ranks -1 |
| CommandLineCalculator.Calc | CommandLineCalculator.java:123-154 | fewer than two operands is a malformed-expression error; otherwise a zero divisor of `/` and a non-operator are the errors, exactly; on success the two top operands are replaced by `a op b`, everything below is unchanged and one operator is popped |
| CommandLineCalculator.Calculate | CommandLineCalculator.java:123-154 | the imperative pop-pop-pop-push equals `Calc` on the same stacks |
| CommandLineCalculator.ReduceShape | CommandLineCalculator.java:82-85 | before an operator of a given priority, the operators applied are a top segment of the stack, each ranking at least that priority; the operator left on top ranks below it; each application consumes one operand; applying nothing changes nothing |
| CommandLineCalculator.ReduceKeepsLowerOperands | CommandLineCalculator.java:82-84 | reducing leaves every operand below the combined value untouched |
| CommandLineCalculator.ReduceStopsAtParen | CommandLineCalculator.java:82-84 | reducing before one of the four operators never applies a `(` |
| CommandLineCalculator.ApplyWhileNotLower | CommandLineCalculator.java:82-84 | the imperative loop before an operator push equals `Reduce` |
| CommandLineCalculator.UnwindShape | CommandLineCalculator.java:74-76 | a `)` applies exactly the operators above the topmost `(`, one operand consumed each, and stops with `(` on top or the stack empty |
| CommandLineCalculator.ApplyUntilParen | CommandLineCalculator.java:74-76 | the imperative loop run by `)` equals `Unwind` |
| CommandLineCalculator.CloseParenShape | CommandLineCalculator.java:72-79 | a `)` fails exactly when applying one of the operators fails, and with that error; otherwise the operator stack is cut back to just below its topmost `(`, and with no `(` on it the stack ends empty and no error is raised |
| CommandLineCalculator.Drain | CommandLineCalculator.java:90-92 | after the scan, the operator stack ends empty, with one operand consumed per operator, and some operand remains when an operator was pending |
| CommandLineCalculator.ApplyRemaining | CommandLineCalculator.java:90-92 | the imperative final loop equals `Drain` |
| CommandLineCalculator.ScanNumber | CommandLineCalculator.java:53-66 | the literal loop never moves backwards, stays inside the text and advances past a literal character |
| CommandLineCalculator.ScanNumberShape | CommandLineCalculator.java:53-66 | a literal is a maximal run of digits and points: every character read is one, and the character after it is not |
| CommandLineCalculator.ReadNumber | CommandLineCalculator.java:50-67 | the imperative inner loop and its back-step yield the value and end position of `ScanNumber` |
| CommandLineCalculator.IntegerPrefix | CommandLineCalculator.java:61-63 | through a run of digits with no point, the loop computes the base-10 value of the run (Horner's rule) |
| CommandLineCalculator.IntegerDigit | CommandLineCalculator.java:62 | one-step unfolding of the literal loop: a digit before any point multiplies the value by ten and adds the digit |
| CommandLineCalculator.IntegerLiteral | CommandLineCalculator.java:48-68 | a maximal run of digits pushes its base-10 value and the scan resumes at the first character after it |
| CommandLineCalculator.OneFractionalDigit | CommandLineCalculator.java:54-60 | digits, a point and exactly one more digit give the exact decimal value |
| CommandLineCalculator.DigitPointDigit | CommandLineCalculator.java:48-68 | a one-digit whole part and a one-digit fraction give `d + f/10` and end after the fraction |
| CommandLineCalculator.FractionExamples | CommandLineCalculator.java:57-60 | `1.5` reads as 1.5, but `1.25` reads as 0.17 because the whole value is divided again at each fractional digit |
| CommandLineCalculator.PointQuirks | CommandLineCalculator.java:54-55 | a second point is accepted (`1.2.3` reads as 0.15), and a lone `.` reads as 0 and evaluates to 0 |
| CommandLineCalculator.SkipsOtherCharacters | CommandLineCalculator.java:45-86 | a character that is neither a literal character, a parenthesis nor an operator leaves both stacks unchanged |
| CommandLineCalculator.LiteralStep | CommandLineCalculator.java:48-68 | one-step unfolding of `Scan`: a literal pushes the value of the literal loop and the scan continues where that loop stopped |
| CommandLineCalculator.OperatorStep | CommandLineCalculator.java:80-86 | one-step unfolding of `Scan`: an operator reduces the stacks, then is pushed |
| CommandLineCalculator.OpenStep | CommandLineCalculator.java:69-71 | one-step unfolding of `Scan`: a `(` is pushed and nothing else changes |
| CommandLineCalculator.CloseStep | CommandLineCalculator.java:72-79 | one-step unfolding of `Scan`: a `)` continues from the stacks `CloseParen` leaves |
| CommandLineCalculator.CalcPair | CommandLineCalculator.java:128-153 | applying an operator to `a` and `b` on top replaces them by `a op b` and pops the operator |
| CommandLineCalculator.FinishPair | CommandLineCalculator.java:90-94 | one pending operator over two operands ends with `a op b` |
| CommandLineCalculator.FinishTriple | CommandLineCalculator.java:90-94 | two pending operators are applied upper one first |
| CommandLineCalculator.DigitOperator | CommandLineCalculator.java:80-86 | an operator that outranks the stacked one is pushed above it without applying anything |
| CommandLineCalculator.BinaryPrefix | CommandLineCalculator.java:45-86 | `x op y` over lower-ranked stacked operators pushes both operands and the operator |
| CommandLineCalculator.LastOperation | CommandLineCalculator.java:80-94 | a final `op d` over a single operand `a` yields `a op d` |
| CommandLineCalculator.ThreeOperands | CommandLineCalculator.java:41-95 | `x p y q z` is `(x p y) q z` when `q` does not outrank `p` (left associativity) and `x p (y q z)` when it does (precedence) |
| CommandLineCalculator.LeftFirst | CommandLineCalculator.java:82-85 | an operator that does not outrank the stacked one applies it first |
| CommandLineCalculator.RightFirst | CommandLineCalculator.java:82-94 | an operator that outranks the stacked one is applied first, at the end of the text |
| CommandLineCalculator.RightOperandStacked | CommandLineCalculator.java:80-86 | an operator that outranks the stacked one, and its operand, are pushed above it |
| CommandLineCalculator.Parenthesised | CommandLineCalculator.java:69-79 | `(x p y) q z` applies `p` first, whatever the ranks of `p` and `q` |
| CommandLineCalculator.GroupFirst | CommandLineCalculator.java:69-79 | a leading group `(x p y)` leaves only `x p y` on the operand stack and no operator |
| CommandLineCalculator.CloseParenPair | CommandLineCalculator.java:72-79 | a `)` over `x p y` applies `p` once and pops the `(` if there is one |
| CommandLineCalculator.UnwindPair | CommandLineCalculator.java:74-76 | unwinding `x p y` to a `(` or to the bottom applies `p` once |
| CommandLineCalculator.UnmatchedClose | CommandLineCalculator.java:72-79 | `x p y ) q z` is `(x p y) q z`: the unmatched `)` applies the pending operator and is otherwise ignored |
| CommandLineCalculator.TwoDigitLeft | CommandLineCalculator.java:41-95 | `xx p y q z`, with a two-digit first literal and `q` not outranking `p`, is `(xx p y) q z` |
| CommandLineCalculator.TwoDigitPrefix | CommandLineCalculator.java:48-86 | the scan of `xx p y` pushes the two-digit value, `y` and `p` |
| CommandLineCalculator.TwoDigitTail | CommandLineCalculator.java:80-94 | a final `q z` over `v p y`, with `q` not outranking `p`, applies `p` and then `q` |
| CommandLineCalculator.ReducePair | CommandLineCalculator.java:82-84 | reducing before an operator that does not outrank `p` applies `p` to the only pair of operands and empties the operator stack |
| CommandLineCalculator.FinalOperand | CommandLineCalculator.java:48-94 | a last one-digit literal `d` after `a` and a pending `op` yields `a op d` |
| CommandLineCalculator.ExampleLeftAssociativeTwoDigits | CommandLineCalculator.java:82-85 | `10-2-3` is 5 |
| CommandLineCalculator.ExamplePrecedence | CommandLineCalculator.java:82-85 | `2+3*4` is 14 |
| CommandLineCalculator.ExampleLeftAssociative | CommandLineCalculator.java:82-85 | `9-2-3` is 4 |
| CommandLineCalculator.ExampleLeftAssociativeDivision | CommandLineCalculator.java:82-85 | `8/2/2` is 2 |
| CommandLineCalculator.ExampleParens | CommandLineCalculator.java:69-79 | `(2+3)*4` is 20 |
| CommandLineCalculator.ExampleUnmatchedClose | CommandLineCalculator.java:72-79 | `1+2)*3` is 9 |
| CommandLineCalculator.FractionalOperands | CommandLineCalculator.java:48-68 | two literals `d.f` with an operator between them evaluate exactly |
| CommandLineCalculator.ExampleDecimals | CommandLineCalculator.java:48-68 | `1.5+2.5` is 4 |
| CommandLineCalculator.ExampleSpaces | CommandLineCalculator.java:45-86 | `2 + 3` and `2+3` both give 5 |
| CommandLineCalculator.ExampleUnspaced | CommandLineCalculator.java:45-86 | `2+3` is 5 |
| CommandLineCalculator.SpaceSeparatedDigits | CommandLineCalculator.java:45-94 | a space ends a literal: `x y p z` is `y p z`, and `x` is left below it, unused |
| CommandLineCalculator.ExampleExtraOperand | CommandLineCalculator.java:94 | extra operands are ignored: `2 3` is 3 |
| CommandLineCalculator.ZeroDivisor | CommandLineCalculator.java:144-146 | `d/0` is a division-by-zero error |
| CommandLineCalculator.LoneOperator | CommandLineCalculator.java:124-126 | an operator without operands is a malformed-expression error |
| CommandLineCalculator.UnclosedParen | CommandLineCalculator.java:149-150 | `x(y` leaves a `(` for the final loop, which rejects it as an unknown operator |
| CommandLineCalculator.UnclosedGroup | CommandLineCalculator.java:124-126 | `(x p y` with no `)` leaves `(` over a single operand for the final loop, a malformed-expression error |
| CommandLineCalculator.FinishStrayGroup | CommandLineCalculator.java:90-94 | the final loop over `( x p y` applies `p`, then finds one operand for the `(` and fails as malformed |
| CommandLineCalculator.FinishStrayParen | CommandLineCalculator.java:149-150 | the final loop applies a stacked `(` over two operands and fails with an unknown-operator error |
| CommandLineCalculator.ExampleErrors | CommandLineCalculator.java:94 | the empty text pops an empty stack; `5/0`, `+` and `1(2` fail with their own error kinds; `(1+2` is a malformed expression |
| CommandLineCalculator.EvaluateExpression | CommandLineCalculator.java:41-95 | the imperative scan, with its index stepped inside the literal loop and back, equals `Evaluate` |
| Calculator.Precedence | Calculator.java:9-15 | definition; its properties are stated by `PrecedenceTable` |
| Calculator.ValidateInput | Calculator.java:82-84 | definition; its properties are stated by `ValidateInputExactly` |
| Calculator.PopNotLower | Calculator.java:36-38 | definition; its properties are stated by `PopNotLowerShape`, `PopNotLowerConserves` and `OperatorDepth` |
| Calculator.PopToParen | Calculator.java:30-32 | definition; its properties are stated by `PopToParenShape`, `PopToParenConserves` and `CloseParenDepth` |
| Calculator.Flush | Calculator.java:43-45 | definition; its properties are stated by `FlushConserves` |
| Calculator.Postfix | Calculator.java:18-47 | definition; its properties are stated by `PostfixKeepsLiterals`, `PostfixContents`, `PostfixIgnoresWhitespace`, `PostfixFailsExactly`, `PostfixThree`, `PostfixTwoDigitLeft` and `InfixToPostfix` |
| Calculator.EvalFrom | Calculator.java:54-78 | definition; its properties are stated by `EvalOperatorStep`, `LiteralBuffered`, `LiteralPushedAtWhitespace` and `TrailingLiteralNeverPushed` |
| Calculator.EvalPostfix | Calculator.java:50-79 | definition; its properties are stated by `EvalThreeLeft`, `EvalThreeRight`, `EvalTwoDigitLeft` and `EvaluatePostfix` |
| Calculator.Process | Calculator.java:99-104 | definition; its properties are stated by `ProcessThree`, `ProcessTwoDigitLeft`, `SingleLiteralFails` and `Agreement.TwoStageAgrees` |
| Calculator.PrecedenceTable | Calculator.java:9-15 | `+` `-` rank 1 and `*` `/` rank 2, exactly; every other character, `(` included, ranks -1 |
| Calculator.ValidateInputExactly | Calculator.java:82-84 | the check holds exactly for non-empty text whose every character is a digit, an operator, a parenthesis, a point or whitespace |
| Calculator.PopNotLowerShape | Calculator.java:36-38 | before an operator is pushed, the operators emitted are a top segment of the stack, each ranking at least that operator; the one left on top ranks below it |
| Calculator.PopToParenShape | Calculator.java:30-32 | a `)` emits exactly the operators above the topmost `(` and stops with `(` on top or the stack empty |
| Calculator.PopNotLowerConserves | Calculator.java:36-38 | the pops before an operator move characters from the stack to the output; nothing is lost or added, and no digit reaches the output |
| Calculator.PopToParenConserves | Calculator.java:30-32 | the pops run by `)` move characters from the stack to the output; nothing is lost or added |
| Calculator.FlushConserves | Calculator.java:43-45 | the final flush moves every stacked character to the output |
| Calculator.PostfixFrom | Calculator.java:29-33 | the only error the conversion can raise is the pop of an empty stack |
| Calculator.PostfixFromKeepsLiterals | Calculator.java:25-26 | the conversion copies every digit and point of the input, in input order, and no other digit or point |
| Calculator.PostfixKeepsLiterals | Calculator.java:18-47 | the output's digits and points are exactly the input's, in order |
| Calculator.PostfixFromKeepsOperators | Calculator.java:34-45 | every operator character of the input reaches the output exactly once |
| Calculator.PostfixFromOpenParens | Calculator.java:27-45 | a `(` is dropped only when a `)` matches it; the others reach the output |
| Calculator.PostfixFromNoCloseParen | Calculator.java:29-33 | a `)` never reaches the output |
| Calculator.PostfixContents | Calculator.java:18-47 | the output holds the input's literals in order, each operator exactly as often as the input, a `(` only for each unmatched one, and no `)` |
| Calculator.PostfixFromIgnoresWhitespace | Calculator.java:23 | removing whitespace from the rest of the input does not change the conversion |
| Calculator.PostfixIgnoresWhitespace | Calculator.java:18-47 | an expression and the same expression without whitespace convert alike |
| Calculator.CloseParenDepth | Calculator.java:29-33 | a `)` empties the stack exactly when no `(` is on it, and otherwise removes one `(` |
| Calculator.OperatorDepth | Calculator.java:34-40 | an operator never pops a `(` |
| Calculator.PostfixFromFailsExactly | Calculator.java:29-33 | on expression characters, the conversion fails if and only if some `)` finds no `(` to match |
| Calculator.PostfixFailsExactly | Calculator.java:18-47 | validated input fails to convert if and only if it has an unmatched `)`, and that error is the pop of an empty stack |
| Calculator.ParseDouble | Calculator.java:61 | a buffer of digits and points parses if and only if it has a digit and at most one point; a digit string parses to its base-10 value; every failure is a number-format error |
| Calculator.ParseDoubleDecimal | Calculator.java:61 | `whole.fraction` parses to its decimal value when either part is non-empty |
| Calculator.ParseInteger | Calculator.java:61 | a non-empty run of digits parses to its base-10 value |
| Calculator.MalformedLiteral | Calculator.java:59-63 | a buffer with no digit or with two points fails when the whitespace after it makes it parse |
| Calculator.LonePoint | Calculator.java:61 | `.` does not parse |
| Calculator.TwoPoints | Calculator.java:61 | `1.2.3` does not parse |
| Calculator.PopApply | Calculator.java:64-76 | fewer than two values is an empty-stack error; a zero divisor of `/` is an error, and the only other one; otherwise `b` and `a` are popped and `a op b` pushed, with everything below unchanged; any other character pops two values and pushes nothing |
| Calculator.ApplyOperator | Calculator.java:64-76 | the imperative operator branch equals `PopApply` |
| Calculator.EvalOperatorStep | Calculator.java:64-76 | a character that is not a literal character or whitespace applies `PopApply` to the stack and leaves the literal buffer alone |
| Calculator.LiteralBuffered | Calculator.java:55-58 | digits and points only extend the buffer: nothing is pushed while they are read |
| Calculator.LiteralPushedAtWhitespace | Calculator.java:59-63 | a buffered literal is parsed and pushed when whitespace follows it; a malformed one fails there |
| Calculator.TrailingLiteralNeverPushed | Calculator.java:54-78 | a literal at the very end is never pushed: the result is what was already on top, or an empty-stack error |
| Calculator.SingleLiteralFails | Calculator.java:78 | `5` alone never reaches the stack, so it ends with an empty-stack error, also after validation and conversion |
| Calculator.PostfixLiteralStep | Calculator.java:25-26 | one-step unfolding of `PostfixFrom`: a digit or point is appended to the output |
| Calculator.PostfixOperatorStep | Calculator.java:34-40 | one-step unfolding of `PostfixFrom`: an operator appends a space, emits the operators that do not rank below it, then is pushed |
| Calculator.PostfixThree | Calculator.java:18-47 | `x p y q z` converts to `x y p z q` when `q` does not outrank `p` and to `x y z q p` when it does |
| Calculator.PostfixThreeLeft | Calculator.java:36-45 | an operator that does not outrank the stacked one emits it first |
| Calculator.PostfixThreeRight | Calculator.java:36-45 | an operator that outranks the stacked one is emitted before it at the flush |
| Calculator.DigitPushedAt | Calculator.java:55-63 | a one-digit literal followed by a space is pushed with its value |
| Calculator.SpaceAt | Calculator.java:59-60 | one-step unfolding of `EvalFrom`: a space with an empty buffer changes nothing |
| Calculator.ApplyAt | Calculator.java:64-76 | a binary operator replaces the two top values by `a op b` |
| Calculator.TwoOperandsPushed | Calculator.java:55-63 | `x y ` at the start of postfix text pushes both values |
| Calculator.LastOperand | Calculator.java:64-78 | a final `d op` over the single value `v` yields `v op d` |
| Calculator.EvalThreeLeft | Calculator.java:50-79 | postfix `x y p z q` is `(x p y) q z` |
| Calculator.EvalThreeRight | Calculator.java:50-79 | postfix `x y z q p` is `x p (y q z)` |
| Calculator.ProcessThree | Calculator.java:99-104 | validation, conversion and evaluation of `x p y q z` give the left-associative value when `q` does not outrank `p`, and the precedence value when it does |
| Calculator.PostfixTwoDigitLeft | Calculator.java:18-47 | `xx p y q z`, with `q` not outranking `p`, converts to `xx y p z q`, the two digits staying together |
| Calculator.TwoDigitsPushed | Calculator.java:55-63 | a two-digit literal followed by a space at the start of postfix text pushes its base-10 value |
| Calculator.EvalTwoDigitLeft | Calculator.java:50-79 | postfix `xx y p z q` is `(xx p y) q z` |
| Calculator.ProcessTwoDigitLeft | Calculator.java:99-104 | validation, conversion and evaluation of `xx p y q z`, with `q` not outranking `p`, give `(xx p y) q z` |
| Calculator.PostfixSpacedDigits | Calculator.java:23-26 | whitespace is dropped before digits are copied, so `x y p z` converts to `xy z p`, the two digits joined into one literal |
| Calculator.EvalTwoDigitPair | Calculator.java:50-79 | postfix `xy z p` is the two-digit value `xy` combined with `z` by `p` |
| Calculator.ProcessSpacedDigits | Calculator.java:99-104 | validation, conversion and evaluation of `x y p z` give `xy p z` |
| Calculator.ExamplePostfixTwoDigits | Calculator.java:36-45 | `10-2-3` converts to `10 2 - 3 -` |
| Calculator.ExampleLeftAssociativeTwoDigits | Calculator.java:99-104 | `10-2-3` evaluates to 5 |
| Calculator.ExampleLeftAssociative | Calculator.java:36-45 | `9-2-3` converts to `9 2 - 3 -` and evaluates to 4 |
| Calculator.ExamplePrecedence | Calculator.java:36-45 | `2+3*4` converts to `2 3 4 * +` and evaluates to 14 |
| Calculator.InfixToPostfix | Calculator.java:18-47 | the imperative conversion, with its output buffer and stack, equals `Postfix` |
| Calculator.EvaluatePostfix | Calculator.java:50-79 | the imperative evaluation, with its stack and literal buffer, equals `EvalPostfix` |
| Chars.DigitValue | CommandLineCalculator.java:62 | `c - '0'` is between 0 and 9 for a digit |
| Chars.Pow10 | CommandLineCalculator.java:60 | the exact power of ten is at least 1, so the division by it is defined |
| Agreement.SymbolIsOperator | CommandLineCalculator.java:98-100 | every reference operator prints as a character both evaluators treat as an operator, with a priority of at least 1 |
| Agreement.OperatorIsSymbol | CommandLineCalculator.java:98-100 | conversely, a character is a one-pass operator, and has a two-stage precedence of at least 1, if and only if it prints some reference operator |
| Agreement.SpacedDigitsDiffer | Calculator.java:23-26 | both evaluators succeed on `1 2+3` and disagree: the one-pass value is 5, the two-stage value 15 |
| Agreement.ShowPermitted | Calculator.java:83 | every fully parenthesised integer expression passes input validation |
| Agreement.OnePassAgrees | CommandLineCalculator.java:41-95 | on every fully parenthesised expression with integer literals, the one-pass evaluator returns the reference value, or the division-by-zero error where the reference divides by zero |
| Agreement.TwoStageAgrees | Calculator.java:18-79 | on the same expressions, the conversion produces the expected postfix text, and validation, conversion and evaluation return the reference value or the division-by-zero error; a lone literal ends with an empty-stack error |
| Agreement.EvaluatorsAgree | Calculator.java:99-104 | on every fully parenthesised compound expression with integer literals, both calculators succeed or fail together and agree on the value |

## Left out

- The two `main` loops (`CommandLineCalculator.java:15-38`, `Calculator.java:86-112`): reading
  lines, prompts, the `quit`/`exit` keywords, printing and `%.2f` formatting are console I/O.
  `Calculator.Process` models only the validate, convert, evaluate sequence at
  `Calculator.java:99-104`. The `trim()` at `Calculator.java:92` is not applied, so the lemmas
  about `Process` are about the trimmed line.
- IEEE-754 rounding and `Math.pow`: numbers are exact reals and `10^k` is exact.
- `Double.parseDouble` is modelled only on what the postfix buffer can hold, namely digits and
  points. It accepts one optional point and at least one digit and rejects everything else.
  Exponents, signs, hexadecimal and the `d`/`f` suffixes cannot reach it.
- The Java regex engine, `Character.isDigit` and `Character.isWhitespace` are restricted to
  ASCII. Unicode digits and Unicode spaces (outside the ASCII whitespace controls) are not
  modelled.
- Exception message texts are left out. Each kind of exception is a distinct error kind
  instead; in particular, every pop of an empty stack is `EmptyStack`, wherever it happens.
- The two `java.util.Stack` objects and the `StringBuilder` are modelled as sequence-valued
  local variables of the methods. Aliasing between them cannot occur in the source and is not
  modelled.
- `Calculator.java:55` lacks a closing parenthesis and does not compile as written. The model
  takes its evident meaning: a digit is appended to the literal buffer.
- CommandLineCalculator.Calc: requires a non-empty operator stack. Every call site of
  `calculate` checks this, so the `EmptyStackException` that `operatorStack.pop()` would raise
  is not modelled.
- CommandLineCalculator.Calculate: requires a non-empty operator stack, for the same reason
  as `Calc`.
- CommandLineCalculator.ThreeOperands: stated for one-digit operands only. Multi-digit
  literals are covered by `IntegerLiteral`, `TwoDigitLeft` and the agreement lemmas.
- CommandLineCalculator.FractionalOperands: excludes `/` so that no divisor needs to be
  shown to be non-zero. `ZeroDivisor` covers the zero case.
- Calculator.ProcessThree: stated for one-digit operands only. `ProcessTwoDigitLeft` covers a
  two-digit first operand.
- Agreement.OnePassAgrees: stated for fully parenthesised expressions with integer
  literals only. Without parentheses, the general mechanism of precedence and
  associativity is stated by `ReduceShape` and `PopNotLowerShape`. Its consequence for
  whole expressions is proved only for `x p y q z` with one-digit operands (`ThreeOperands`,
  `ProcessThree`) and for `xx p y q z` with a two-digit first operand and `q` not outranking
  `p` (`TwoDigitLeft`, `ProcessTwoDigitLeft`). No lemma covers unparenthesised expressions
  of any other shape.
- Agreement.TwoStageAgrees: the same restriction as `OnePassAgrees`.
- Agreement.EvaluatorsAgree: the same restriction as `OnePassAgrees`. Outside it, the two
  evaluators differ in at least these ways:
  - an unmatched `)` is ignored by one and an empty-stack error in the other;
  - a lone literal is its own value in one and an empty-stack error in the other;
  - a second fractional digit is scaled differently (`1.25`);
  - a second point, or a lone `.`, is read by the one-pass loop (`PointQuirks`) but is a
    number-format error in the two-stage evaluator once whitespace follows it (`TwoPoints`,
    `MalformedLiteral`);
  - a character outside the alphabet is skipped by the one-pass scan
    (`SkipsOtherCharacters`) but fails validation (`ValidateInputExactly`), and so does the
    empty text;
  - digits separated by whitespace are two literals in the one-pass scan but one literal
    after the conversion to postfix drops the whitespace. Both succeed and disagree:
    `1 2+3` is 5 in one and 15 in the other (`SpacedDigitsDiffer`).
