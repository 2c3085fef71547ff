# MathSolver in Dafny

A model of `MathSolver`, a small C++ class that evaluates arithmetic
expressions such as `3+4*(2-1)`. The class scans the input once, left to
right. Every operator character (`( ) * / % + -`) ends the number before it,
which is read with `std::stof` and pushed on an operand stack. The operator
is then pushed on an operator stack with a precedence: 3 for `* / %`, 2 for
`+ -`, 0 for `(`. Operators are reduced while scanning, as soon as precedence
allows (a variant of the Shunting-Yard algorithm). After the scan the
trailing number is pushed, everything left is reduced, and the top of the
operand stack is the answer. Errors are thrown as text messages. `Solve`
catches those raised while pushing operators and while reducing at the end,
prints the message and returns 0.

The project has five modules:

- `Results` (results.dfy): the `Option` and `Result` datatypes.
- `Numbers` (numbers.dfy): the values the solver computes. `Num` is a real
  number or `NaN`. It has the four arithmetic operators, `fmod`, and
  `stof` as it reads a text: the longest prefix of digits, optionally
  followed by `.` and more digits, with the rest of the text ignored. The
  scanner hands `stof` any run of characters that are not operators
  (`1e5`, `1.2.3` and `abc` included); "## Left out" lists the spellings
  this reading does not cover.
- `Evaluation` (evaluation.dfy): the solver's fields as one `State` value,
  and every state-changing member function as a function on it. Each
  function gives the next state (`Next`), or the state at the moment an
  error is thrown together with the error (`Thrown`). `Evaluate(flag, input)`
  is the answer of `Solve` as a function of the input and of the
  consecutive-operator flag left by the previous call. `Evaluation.IsOperator`
  is `isOperator`.
- `Solver` (solver.dfy): the class `MathSolver`. It has the source's fields
  (stacks as sequences whose last element is the top) and its methods, with
  their loops. Every method is proved to leave exactly the state its contract
  gives: for the constructor and `PopStacks` that state is written out,
  and for the other five it is the matching `Evaluation` function.
- `Properties` (properties.dfy) and `Examples` (examples.dfy): what the
  evaluation accepts, refuses and computes, for all inputs and for concrete
  ones.

Errors are the `Evaluation.Error` datatype: one constructor per thrown
message, plus three for behaviours the source does not define or does not
catch:

- `StackUnderflow`: `top()` on an empty stack.
- `EmptyInput`: `back()` on an empty string.
- `MalformedNumber`: `std::stof` finding no number. `stof` then throws
  `std::invalid_argument`, and `Solve` only catches `const char*`. So this
  exception is never caught, neither in the scan loop (line 181) nor in the
  trailing push (line 203). It leaves `Solve`, and the loop in Knowit.cpp
  (lines 12-19) does not catch it either, so it ends the program.

In the model, a caught error makes `Solve` return `Failure(e)` instead of
printing and returning 0. The answer 0 of a failed call and a real 0 are
therefore told apart.

The model follows the code where a plain reading of what the solver is for
would expect something else:

- `+` and `-` reduce only operators of higher precedence before they are
  pushed. A chain of them is therefore reduced from the right at the end:
  `1-2+3` is -4 (`Examples.SubtractionChain`).
- `*`, `/` and `%` reduce nothing before they are pushed, so a chain of
  them is reduced from the right at the end too: `8/2/2` is 8
  (`Examples.DivisionChain`).
- `ResolveStackUntil` pops a `(` whenever its loop stops on one, including
  when it was called for a `+` or `-`. The parenthesis counter still counts
  that `(`. So `(1*2+3` evaluates to 5 (`Examples.UnclosedParenthesisAccepted`).
- `(1+2` ends by reducing the `(` with only one operand on the stack. This
  reads an empty stack, which is modelled as `StackUnderflow`. The "Mismatchin
  parenthesis '('" message is never reached there
  (`Examples.UnclosedParenthesisFails`).
- Operands left over after the last reduction are not an error: the answer
  is the top one.
- `%` by zero is not refused: `fmod` returns NaN (`Examples.ModuloByZeroExample`).
- `Solve` empties the stacks and zeroes both counters, but keeps
  `illegalOperationsInRow`. A call whose error `Solve` catches right after
  an operator makes the next call refuse an input that starts with `*`:
  `1+*2` is refused with BadSyntax at the `*`, and `*(1)2` is then refused
  too (`Examples.FlagLeaksBetweenCalls`). The leftover flag can only change
  the answer for an input that starts with an operator
  (`Properties.LeadingNumberClearsFlag`). Any call whose last binary
  operator has no number after it leaves the flag set, whether that call
  fails (`1+*2`) or succeeds: `(1)(2)*()` evaluates to 2 and ends with the
  flag set (`Examples.SuccessLeavesFlagSet`).

## Model

| member | source | states |
|---|---|---|
| Numbers.Add | MathSolver.h:46-47 | the sum is a number exactly when both operands are, and subtracting the right operand gives back the left |
| Numbers.Sub | MathSolver.h:44-45 | the difference is a number exactly when both operands are, and adding back the right operand gives the left |
| Numbers.Mul | MathSolver.h:36-37 | the product is a number exactly when both operands are, and dividing by a non-zero right operand gives back the left |
| Numbers.MulByZero | MathSolver.h:36-37 | a zero right operand, the case Mul's contract leaves open, gives the product 0, or NaN from a NaN left operand |
| Numbers.Div | MathSolver.h:38-41 | for a non-zero divisor the quotient times the divisor is the dividend |
| Numbers.Trunc | MathSolver.h:42-43 | rounds toward zero: the fraction dropped lies in [0, 1) for non-negative input and in (-1, 0] for negative input |
| Numbers.Fmod | MathSolver.h:42-43 | the remainder is a number exactly when both operands are and the divisor is not zero; otherwise NaN |
| Numbers.FmodRemainder | MathSolver.h:42-43 | for a non-zero divisor, `a - fmod(a, b)` is a whole multiple of b, the remainder is smaller than b in magnitude and has the sign of a |
| Numbers.ParseNumber | MathSolver.h:132-136 | stof reads a number exactly when the text starts with a digit or with `.` and a digit; the value read is never negative |
| Numbers.DecimalValue | MathSolver.h:134 | the digits of n, read back in base 10, are n |
| Numbers.ParseDecimal | MathSolver.h:134 | reading the decimal text of any n gives n |
| Numbers.ParseTwoAndAHalf | MathSolver.h:134 | the digits after the point are read as a fraction: `2.5` reads as 2.5 |
| Numbers.ParseStopsAtSecondPoint | MathSolver.h:134 | reading stops where the number ends: `1.2.3` reads as 1.2 |
| Evaluation.Apply | MathSolver.h:34-51 | fails exactly for `(` (UnmatchedOpen) and for `/` by zero (DivisionByZero); a quotient times the divisor is the dividend; `%` by zero gives NaN |
| Evaluation.Reduce | MathSolver.h:23-52 | with fewer than two operands it stops with StackUnderflow; otherwise the two top operands are replaced by `second op top`, the operator is popped and the rest of both stacks is kept |
| Evaluation.ResolveAll | MathSolver.h:54-62 | the entries left are well formed; counters and flag are untouched |
| Evaluation.ResolveAllShape | MathSolver.h:54-62 | on success the operator stack is empty, there is one operand fewer per operator and the operands below the result are kept |
| Evaluation.ResolveAllFails | MathSolver.h:54-62 | no more operands than operators, or a `(` anywhere on the stack, make it fail |
| Evaluation.ResolveUntil | MathSolver.h:64-80 | an empty stack is StackUnderflow; the stack never grows, its entries stay well formed, counters and flag are untouched |
| Evaluation.ResolveUntilCount | MathSolver.h:67-73 | on success one operand is consumed per entry of the run above precedence p at the top of the stack |
| Evaluation.ResolveUntilShape | MathSolver.h:64-80 | on success exactly that run is gone, and the entry the loop stops on is popped too when it is a `(`; the whole stack may be used up |
| Evaluation.CountOperator | MathSolver.h:127-129 | counts the operator and fails exactly when the count reaches 256 |
| Evaluation.PushMultiplicative | MathSolver.h:87-97 | the entries it leaves are well formed |
| Evaluation.PushAdditive | MathSolver.h:99-111 | the entries it leaves are well formed |
| Evaluation.PushClose | MathSolver.h:118-124 | the entries it leaves are well formed |
| Evaluation.PushOperator | MathSolver.h:82-130 | the entries it leaves are well formed |
| Evaluation.MultiplicativeSpec | MathSolver.h:87-97 | `* / %` are refused right after another operator; otherwise the flag is set, the operator is pushed at precedence 3 with nothing reduced, and it is counted, failing exactly at the 256 limit |
| Evaluation.AdditiveSpec | MathSolver.h:99-111 | `+ -` are refused right after another operator; otherwise the flag is set, the operator ends on top at precedence 2, nothing is reduced when the top was not above 2; when the top was above 2, the stack under the new entry is what ResolveStackUntil(2) leaves (`Remaining(ops, 2)`: the run above precedence 2 reduced, and a `(` right below that run popped); and it is counted, failing at the 256 limit; with the flag clear it succeeds exactly when the limit is not reached and, when the top was above 2, the reduction succeeds |
| Evaluation.CloseSpec | MathSolver.h:118-124 | `)` decrements the parenthesis counter and fails with UnmatchedClose when it was not positive; otherwise the stack left is `Remaining(ops, 0)` (the run above the nearest `(` reduced and that `(` popped, or the whole stack used up when there is none), it keeps the flag and is counted, failing at the 256 limit; with the counter positive it succeeds, whatever the flag, exactly when the reduction succeeds and the limit is not reached |
| Evaluation.PushOperatorSpec | MathSolver.h:82-130 | the flag is tested and set by binary operators only; the precedence of each kind; `(` is always pushed at 0 and not counted; the stack a reducing `+ -` or `)` leaves (`Remaining`); the counter updates and the 256 limit; exactly when each kind of push succeeds (for `)` independently of the flag) |
| Evaluation.PushOperatorConsistent | MathSolver.h:82-130 | a push that raises nothing keeps a consistent state consistent: well-formed entries, every `(` on the stack counted, operator counter below the limit |
| Evaluation.AdditiveConsistent | MathSolver.h:99-111 | the same for `+` and `-`, through the reduction they may trigger |
| Evaluation.CloseConsistent | MathSolver.h:118-124 | the same for `)` |
| Evaluation.PushNumber | MathSolver.h:132-136 | succeeds exactly when stof reads a number, then pushes it and clears the flag; MalformedNumber with the state unchanged otherwise |
| Evaluation.IsOperator | MathSolver.h:147-159 | (no contract) the seven operator characters `( ) * / % + -`; every other character belongs to a number |
| Evaluation.WellFormedPrecedence | MathSolver.h:87-114 | an operator-stack entry is well formed exactly when it holds a binary operator or `(` at the precedence the switch pushes it with (3, 2 or 0) |
| Evaluation.NumberStart | MathSolver.h:176-197 | numStartIndex at each turn of the loop: one past the last operator seen, or 0, with no operator between it and the current index |
| Evaluation.ScanAt | MathSolver.h:178-197 | one turn of the loop keeps the operator stack well formed |
| Evaluation.Scan | MathSolver.h:176-199 | the whole loop keeps the operator stack well formed |
| Evaluation.ScanAtCounts | MathSolver.h:178-197 | one turn counts an operator other than `(`, moves the parenthesis counter by the character, and keeps a consistent state consistent |
| Evaluation.ScanCounters | MathSolver.h:176-199 | after a scan without error the operator counter has grown by the counted operators and the parenthesis counter by the depth of the text scanned, and the state is still consistent |
| Evaluation.ScanSkip | MathSolver.h:196-197 | a turn at a character that is not an operator changes nothing |
| Evaluation.ScanNumberThrows | MathSolver.h:180-181 | a number before an operator that stof cannot read ends the scan with MalformedNumber |
| Evaluation.ScanOperatorStep | MathSolver.h:178-195 | after the number before it is pushed, the operator push either ends the scan with its error or the scan goes on at the next index |
| Evaluation.ScanErrorEndsRun | MathSolver.h:183-191 | an error thrown during the scan is the answer of the whole evaluation |
| Evaluation.Initial | MathSolver.h:170-174 | (no contract) the state after PopStacks and the reset of both counters: both stacks empty, both counters 0, the flag as the previous call left it |
| Evaluation.Finish | MathSolver.h:201-208 | a successful end leaves no operator on the stack: the trailing number (unless the input ends in `)`) is pushed and everything is reduced |
| Evaluation.Run | MathSolver.h:164-208 | (no contract) the whole of Solve up to its answer: the empty input, the scan loop, then Finish |
| Evaluation.RunFinish | MathSolver.h:176-208 | when the scan raises nothing, Solve goes on with the trailing push and the final reduction |
| Evaluation.Evaluate | MathSolver.h:164-220 | (no contract) the answer of Solve: the top of the operand stack after Run, StackUnderflow when it is empty, or the error that stopped Run; Solve.MathSolver.Solve and the Properties lemmas state what it gives |
| Evaluation.TrailingText | MathSolver.h:201-203 | the trailing number is the rest of the input after numStartIndex |
| Evaluation.TrailingTextAsWritten | MathSolver.h:203 | the text that `substr(numStartIndex, input.back() - numStartIndex)` takes; it differs from the rest of the input exactly when numStartIndex <= the last character's code < the input's length (a smaller code wraps to a huge unsigned count and a larger one is clamped, both giving the rest) |
| Evaluation.OpenCountResolve | MathSolver.h:64-80 | reducing never adds a `(` to the stack |
| Evaluation.OpenCountClose | MathSolver.h:118-124 | a `)` that passes the counter check removes one `(` from the stack, or empties it |
| Evaluation.RunAboveZero | MathSolver.h:75-77 | below the run of entries above precedence 0 there is a `(`; the stack below it holds exactly one `(` fewer |
| Solver.MathSolver.constructor | MathSolver.h:10-21 | both stacks empty, both counters zero, flag clear |
| Solver.MathSolver.ResolveNextOperation | MathSolver.h:23-52 | pops two operands and an operator and returns `second op top`, leaving the state Reduce gives; on error, the state at the throw |
| Solver.MathSolver.ResolveStack | MathSolver.h:54-62 | the loop leaves the state, or the state and error, that ResolveAll gives |
| Solver.MathSolver.ResolveStackUntil | MathSolver.h:64-80 | the loop leaves the state, or the state and error, that ResolveUntil gives |
| Solver.MathSolver.PushToOperatorStack | MathSolver.h:82-130 | leaves the state, or the state and error, that PushOperator gives |
| Solver.MathSolver.PushToNumberStack | MathSolver.h:132-136 | leaves the state, or the state and error, that PushNumber gives |
| Solver.MathSolver.PopStacks | MathSolver.h:138-145 | both stacks empty; counters and flag unchanged |
| Solver.MathSolver.Solve | MathSolver.h:164-220 | the answer is Evaluate of the input and the flag left by the previous call, and the fields end as the evaluation leaves them |
| Properties.FirstOperator | MathSolver.h:176-197 | the first operator at or after i, with none before it |
| Properties.ScanSkipsNumber | MathSolver.h:196-197 | characters that are not operators leave the state unchanged |
| Properties.NumberThenOperator | MathSolver.h:178-195 | at an operator that ends a number, the number is pushed and then the operator |
| Properties.OperatorAfterOperator | MathSolver.h:178-195 | at an operator right after another one, no number is pushed |
| Properties.Term | MathSolver.h:176-197 | a number followed by an operator: the digits change nothing, then the number and the operator are pushed |
| Properties.LastNumber | MathSolver.h:201-208 | the number at the end of the input is pushed by the code after the loop, and then everything is reduced |
| Properties.NumberStartAt | MathSolver.h:181 | a number starts right after the last operator before it |
| Properties.NoOperatorBefore | MathSolver.h:167 | a number with no operator before it starts at index 0 |
| Properties.BinaryPairStopsScan | MathSolver.h:90-104 | a scan that reaches two adjacent binary operators throws |
| Properties.ConsecutiveOperatorsFail | MathSolver.h:90-104 | any input with two adjacent binary operators fails, whatever the flag |
| Properties.CloseStopsScan | MathSolver.h:118-121 | a scan that reaches a point where more `)` than `(` have been seen throws |
| Properties.UnmatchedCloseFails | MathSolver.h:118-121 | any input with a prefix closing more parentheses than it opens fails |
| Properties.TooManyOperatorsFail | MathSolver.h:127-129 | any input with 256 or more operators other than `(` fails |
| Properties.NumberEvaluates | MathSolver.h:201-219 | the decimal text of any n evaluates to n |
| Properties.BinaryScan | MathSolver.h:176-199 | scanning `a op b` pushes a and op and leaves b for the end |
| Properties.FirstOperand | MathSolver.h:178-195 | the turn at the operator of `a op b` pushes a and the operator |
| Properties.BinaryOperationEvaluates | MathSolver.h:164-220 | `a op b` for any decimal numbers evaluates to Apply(op, a, b), whatever the flag |
| Properties.ResolveOne | MathSolver.h:54-62 | with one operator on the stack, ResolveStack is one reduction |
| Properties.LeadingNumberClearsFlag | MathSolver.h:170-174 | the flag kept from the previous call changes nothing for an input that starts with a non-operator |
| Properties.FlagClearedAtOperator | MathSolver.h:180-181 | the turn at the first operator after a leading number does not depend on the flag, unless stof cannot read that number |
| Properties.FlagClearedAtEnd | MathSolver.h:202-203 | an input without operators is pushed the same way whatever the flag, unless stof cannot read it |
| Examples.ExampleFromMain | Knowit.cpp:7 | `3+4*(2-1)` evaluates to 7 |
| Examples.PrecedenceExample | MathSolver.h:95-96 | `3+4*2` evaluates to 11 |
| Examples.DivisionExample | MathSolver.h:69-72 | `10/2-3` evaluates to 2; the `-` reduces until the operator stack is empty |
| Examples.ConsecutiveOperatorsExample | MathSolver.h:90-91 | `1+*2` fails with BadSyntax, thrown at the `*` with the flag set by the `+` still set |
| Examples.UnmatchedCloseExample | MathSolver.h:119-121 | `1+2)` fails with UnmatchedClose |
| Examples.SubtractionChain | MathSolver.h:106-110 | `1-2+3` evaluates to -4 |
| Examples.DivisionChain | MathSolver.h:87-97 | `8/2/2` evaluates to 8 (2/2 reduced first) |
| Examples.UnclosedParenthesisAccepted | MathSolver.h:75-77 | `(1*2+3` evaluates to 5 |
| Examples.UnclosedParenthesisFails | MathSolver.h:23-29 | `(1+2` fails with StackUnderflow |
| Examples.LeadingOperatorAccepted | MathSolver.h:180 | `*(1)2` evaluates to 2 when the flag is clear |
| Examples.LeadingOperatorRefused | MathSolver.h:90-91 | `*(1)2` fails with BadSyntax when the flag is set |
| Examples.DanglingOperator | MathSolver.h:202-203 | `1+` hands stof an empty text after the `+`, which fails with MalformedNumber (an exception Solve does not catch) |
| Examples.SuccessLeavesFlagSet | MathSolver.h:87-97 | `(1)(2)*()` evaluates to 2 from a clear flag and ends with the flag set, since no number follows the `*` |
| Examples.FlagLeaksBetweenCalls | MathSolver.h:170-174 | on one solver, `1+*2` then `*(1)2` both fail with BadSyntax (the first error is caught by Solve), while a fresh solver gives 2 for `*(1)2` |
| Examples.ModuloExample | MathSolver.h:42-43 | `5%3` evaluates to 2 |
| Examples.DivisionByZeroExample | MathSolver.h:38-40 | `5/0` fails with DivisionByZero |
| Examples.ModuloByZeroExample | MathSolver.h:42-43 | `5%0` evaluates to NaN |
| Examples.TrailingNumberTruncated | MathSolver.h:203 | for twenty-three `1+` followed by ten `1`s, the last number starts at 46 and the length computed as written (49 - 46) takes only `111` of `1111111111` |

## Left out

- Floating point: values are exact reals. `float` rounding, overflow to
  infinity and the precision of `stof` are not modelled. NaN is kept only
  as the result of `%` by zero, and NaN propagates through every operator.
- Numbers.ParseNumber: `std::stof` is modelled on the texts the scanner
  hands it, which contain no operator characters. It reads the longest
  prefix of digits, optionally followed by `.` and more digits, ignoring
  what follows. Leading whitespace, a sign, exponents (`1e5`), hexadecimal
  and `inf`/`nan` spellings are not modelled. Such texts are read as their
  digit prefix, or refused with MalformedNumber.
- The `std::out_of_range` that `stof` throws for huge values is not
  modelled: every digit string is a value.
- Solve catches thrown messages, prints them and returns 0. The model
  returns `Failure(e)` instead; the printing is left out.
- The loop in Knowit.cpp that reads a token from standard input, calls
  Solve and prints the result is I/O. Only its example input is modelled
  (`Examples.ExampleFromMain`).
- The `input` field and the constant `maxOperatorsInInput` of the class are
  not fields of the model: the field is never used, and the constant is
  `Evaluation.MaxOperatorsInInput`.
- Characters are Unicode code points. The source's `char` is a byte that
  may be signed, so a last character outside ASCII has a negative code
  there. That only changes `Evaluation.TrailingTextAsWritten`, which the
  model does not use.
- Undefined behaviour (the top of an empty stack, the last character of an
  empty string) is modelled as an error that ends the evaluation: StackUnderflow or
  EmptyInput.

## Findings

| source | as written | input that shows it | evidently intended | confidence | as-written member | corrected member |
|---|---|---|---|---|---|---|
| MathSolver.h:203 | the length of the trailing number is `input.back() - numStartIndex`: the character code of the last character minus the start index | any input with numStartIndex <= input.back() < input.length(); for twenty-three `1+` followed by ten `1`s (56 characters, last code 49, numStartIndex 46) stof gets `111`, so the answer is 23 + 111 = 134 instead of 23 + 1111111111 | the rest of the input from numStartIndex, `input.length() - numStartIndex` | high (not executed) | Evaluation.TrailingTextAsWritten, Examples.TrailingNumberTruncated | Evaluation.TrailingText, Properties.NumberEvaluates |
