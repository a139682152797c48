# assertions.h in Dafny

A model of the `Assert` macro of the header-only C library `assertions.h`,
with proofs about it. The header has four parts:

- The variadic utilities. `ASSERTS_VA_TAIL_SELECT` classifies an argument
  list by its length. It appends a pad of sixty-one `2`s and then `1`, `0`
  and `_`, and takes the 64th element. `ASSERTS_VA_HEAD` and `ASSERTS_VA_TAIL`
  split a list into its first argument and the rest. They paste the
  selector's value onto a helper name.
- The report dispatcher `ASSERTS_VA_PRINTF`. It picks one of three `fprintf`
  shapes: no message, a message only, or a message with values.
- `Assert_impl` and `Assert`. They evaluate the condition once, normalise it
  with `!!`, and on failure write one diagnostic and abort.
- The comparison helpers `EQ`, `Not`, `LT`, `LE`, `GT`, `GE` and `Zero`.

Everything in the header is macro text substitution, so the model is pure
functions and lemmas:

- A macro argument is its token text (`Variadic.Arg`).
- Where `##` pastes an argument, the model holds both the text as written and
  its expansion (`Variadic.MacroArg`). This follows sections 6.10.3.1 and
  6.10.3.3 of ISO/IEC 9899:2011.
- A macro expansion that does not compile is `None`. This covers a pasted
  name that is no macro of the header, a helper given the wrong number of
  arguments, a message that is neither empty nor a string literal, an empty
  value argument, which leaves `, )` or `, ,` in the `fprintf` call, and an
  empty condition, which leaves `int passed = !!();` behind. An empty
  message compiles: `Assert(c, )` formats `[%s:%d] ` and a newline.
- An argument list always has at least one element. A variadic invocation
  always passes at least one argument, possibly an empty one.
- The `fprintf` call is a `Dispatch.Call` value: a format string plus operands.
- `Printf.Format` renders the part of section 7.21.6.1 of ISO/IEC 9899:2011
  that the reports use. It renders `%%`, `%s`, `%d` and `%i` with no flags,
  width, precision or length. A specification that ends on no conversion
  specifier or on a character that is none, such as `% 2 `, gives
  `Undefined`, and so does a missing operand or an operand of the wrong kind.
  Every other specification gives `Unmodelled`: the other valid
  conversions, and also combinations the standard leaves undefined, such as
  `%hs` or `%-%`.
- Running an assertion (`Assertion.Execute`) gives the caller expressions it
  evaluates, in order, and the outcome: `Passed`, or `Failed` with the
  diagnostic.
- The dispatcher, the expansion and the run take a `Dispatch.Helpers`
  argument. It says which definitions of `ASSERTS_VA_PRINTF_HELPER_0` and
  `ASSERTS_VA_PRINTF_HELPER_1` are used. `AsWritten` is lines 40 and 41 of
  the header, which splice the condition text and the message into the
  format string. `Corrected` passes the condition, and the message of a
  message-only assertion, as a `%s` operand (see "## Findings"). The
  header's `Assert` is `Assertion.AssertImpl(AsWritten, ...)`. Lemmas that
  take a `Helpers` argument hold for both definitions; the others name the
  one they are about.

Modules:

- `Wrappers`: the Option type.
- `Variadic`: the selector and the splitter.
- `Printf`: the formatter.
- `Dispatch`: the report helpers.
- `Compare`: the comparison helpers.
- `Assertion`: `Assert_impl` and `Assert`.
- `Scenarios`: five usage scenarios of the library.

A message given without values is evidently meant to be written verbatim,
whatever characters it holds. `ASSERTS_VA_PRINTF_HELPER_1` (assertions.h:41)
instead concatenates the message into the format string, so `fprintf`
interprets its directives. The header's `Assert` follows the code:
`Assertion.MessageDirectiveInterpreted` proves that, as written, a message
starting with `%d` or `%s` reads an operand that is not there. The corrected
definition passes the message as a `%s` operand, and
`Assertion.FailureMessageCorrected` proves that it writes the message
verbatim (see "## Findings").

## Model

| member | source | states |
|---|---|---|
| Variadic.Select64 | assertions.h:54-61 | takes the 64th element of a list of at least 65; `Variadic.Select` states what that is for each argument count |
| Variadic.Repeat | assertions.h:46-52 | the pad's run of `2`s: n copies of the token and nothing else |
| Variadic.Select | assertions.h:44-61 | the selector gives `0` for one argument, `1` for two, `2` for 3 to 63, whatever the argument texts; from 64 arguments on it gives the caller's 64th argument |
| Variadic.SplitCount | assertions.h:22-61 | the splitter, which calls the selector on `_` and the arguments, sees `1` for one argument and `2` for 2 to 62; from 63 on it sees the caller's 63rd argument |
| Variadic.PasteInjective | assertions.h:25-39 | two names pasted onto one prefix are equal exactly when the pasted parts are |
| Variadic.TailHelperPasted | assertions.h:25-27 | pastes the selector's value as written onto `ASSERTS_VA_TAIL_HELPER_`; `Variadic.HelpersProject` states that it gives the rest of the arguments for `2` and nothing for `1` |
| Variadic.HeadHelperPasted | assertions.h:32-34 | pastes the selector's value as written onto `ASSERTS_VA_HEAD_HELPER_`; `Variadic.HelpersProject` states that it gives the first argument for `1` and `2` |
| Variadic.TailHelper | assertions.h:24 | expands the selector before the paste; `Variadic.PasteNeedsExpansion` states that without this step no helper is named |
| Variadic.HeadHelper | assertions.h:31 | expands the selector before the paste; `Variadic.PasteNeedsExpansion` states that without this step no helper is named |
| Variadic.Tail | assertions.h:22 | the tail of the arguments; `Variadic.HeadTailSplit` and `Variadic.SplitDefinedIff` state what it is and when it exists |
| Variadic.Head | assertions.h:29 | the head of the arguments; `Variadic.HeadTailSplit` and `Variadic.SplitDefinedIff` state what it is and when it exists |
| Variadic.HelpersProject | assertions.h:25-34 | whenever HELPER_1/HELPER_2 accept their arguments, the head helper gives the first argument and the tail helper the rest; both accept exactly for `1` with one argument or `2` with two or more |
| Variadic.HeadTailSplit | assertions.h:22-34 | for 1 to 62 arguments the head is the first argument and the tail the rest in order: `[head] + tail == args`, `\|tail\| == k - 1`, and the tail is empty for one argument |
| Variadic.SplitDefinedIff | assertions.h:22-61 | the splitter's expansion is accepted exactly for up to 62 arguments, or when the 63rd argument is the token `2`; head and tail are accepted together |
| Variadic.PasteNeedsExpansion | assertions.h:24-32 | pasting the selector invocation as written, without the HELPER to HELPER_ indirection, names no helper, so neither projection exists |
| Dispatch.LiteralBody | assertions.h:41-42 | a message contributes characters exactly when it is empty or a plain string literal: none for an empty argument, otherwise the characters between the quotes |
| Dispatch.LiteralBodyOfQuoted | assertions.h:41-42 | quoting characters without a quote or a backslash gives a message whose body is exactly those characters, the inverse of `Dispatch.LiteralBody` |
| Dispatch.Exprs | assertions.h:42 | the values become expression operands one to one, in order |
| Dispatch.Spread | assertions.h:36-38 | an empty tail forms exactly one empty argument; a non-empty tail is passed on unchanged |
| Dispatch.NoMessageCallAsWritten | assertions.h:40 | line 40 as written; `Dispatch.ReportFormats` states its format and operands and `Assertion.FailureNoMessagePercent` what it writes |
| Dispatch.NoMessageCall | assertions.h:40 | line 40 corrected; `Assertion.NoMessageText` states that it writes the condition verbatim |
| Dispatch.NoMessageReport | assertions.h:40 | picks the as-written or the corrected line 40; `Dispatch.ReportByShape` states where it is used |
| Dispatch.MessageCall | assertions.h:41-42 | lines 41 as written and 42; `Dispatch.ReportFormats` states when it exists and its format and operands |
| Dispatch.MessageOnlyCall | assertions.h:41 | line 41 corrected; `Assertion.MessageOnlyCallText` states that it writes the message verbatim |
| Dispatch.MessageOnlyReport | assertions.h:41 | picks the as-written or the corrected line 41; `Dispatch.ReportByShape` states where it is used |
| Dispatch.PrintfHelperPasted | assertions.h:39 | pastes the selector's value onto `ASSERTS_VA_PRINTF_HELPER_`; `Dispatch.HelperPastedShapes` states which call each helper makes |
| Dispatch.PrintfHelper | assertions.h:38 | expands the selector's value before the paste; `Dispatch.ReportSplit` states what it is handed |
| Dispatch.Report | assertions.h:36 | the dispatcher; `Dispatch.ReportByShape`, `Dispatch.ReportFormats` and `Dispatch.ReportNeedsSplit` state its result for every argument count |
| Dispatch.HelperShapeOfPaste | assertions.h:39-42 | a pasted printf-helper name denotes a helper exactly when the pasted part is `0`, `1` or `2`, and it denotes the matching shape |
| Dispatch.DispatchByCount | assertions.h:36-61 | for 1 to 63 arguments exactly one of the three helpers is chosen, the one for the argument count; from 64 on one is chosen only when the 64th argument is `0`, `1` or `2` |
| Dispatch.ReportByShape | assertions.h:36-42 | for 1 to 62 arguments the report is line 40's no-message call of the chosen definition on the condition for one argument, line 41's message-only call of the chosen definition on the second argument for two, and otherwise the message call on the second argument with arguments 3 .. k as values |
| Dispatch.ReportFormats | assertions.h:36-42 | the formats and operand lists: as written, one argument gives the format `[%s:%d] Assertion failed: ` + backquoted condition + newline with the file and line as the only operands; corrected, the condition is a `%s` operand; with two or more arguments the report exists exactly when the second argument is empty or a plain string literal and no later argument is empty; as written, and with three or more arguments, the message's characters and a newline follow `[%s:%d] ` with arguments 3 .. k after the file and line; corrected, two arguments give the format `[%s:%d] %s` and a newline with the message as the third operand |
| Dispatch.MessageOnlyCorrected | assertions.h:41 | corrected, a two-argument report is the message-only call on the second argument |
| Dispatch.HelperPastedShapes | assertions.h:39-42 | helper `_0` with one argument gives the no-message call, `_1` with one the message-only call, `_2` with two or more the message call with the rest as values |
| Dispatch.ReportSplit | assertions.h:36-38 | for 1 to 62 arguments the dispatcher hands the helper the head, the selector's value and the spread tail |
| Dispatch.ReportNeedsSplit | assertions.h:22-36 | from 63 arguments on there is no report unless the 63rd argument is the token `2` |
| Printf.Format | assertions.h:40-42 | the text `fprintf` writes; `Printf.FormatDirective`, `Printf.FormatLiteralPrefix` and `Printf.FormatInvalid` state it step by step |
| Printf.DecimalRoundTrip | assertions.h:40-42 | the `%d` numeral of the line number reads back as that number |
| Printf.FormatLiteral | assertions.h:40-41 | a format without `%` is written verbatim and consumes no operand |
| Printf.FormatLiteralPrefix | assertions.h:40-42 | a `%`-free start of a format is copied before the rest is rendered, whatever the operands |
| Printf.FormatDirective | assertions.h:40-42 | one rendering step over `%%`, `%s`, `%d` or `%i`: the operand's text is written and the operand consumed; a missing or mistyped operand is undefined |
| Printf.FormatString | assertions.h:40-42 | `%s` writes the next operand's string |
| Printf.FormatInt | assertions.h:40-42 | `%d` writes the next operand's decimal numeral |
| Printf.FormatStringBetween | assertions.h:40 | a `%s` between two `%`-free parts writes the operand between them |
| Printf.FormatInvalid | assertions.h:40-42 | a `%` followed by an invalid conversion specification makes the rendering undefined |
| Printf.MissingOperand | assertions.h:41 | `%s` or `%d` with no operand left is undefined |
| Printf.LocationPrefix | assertions.h:40-42 | the prefix `[%s:%d] ` consumes the file and the line and writes `[file:line] ` before the rest of the rendering |
| Compare.EQ | assertions.h:78 | 1 when the operands are equal, otherwise 0 |
| Compare.Not | assertions.h:80 | 1 when the condition is zero, otherwise 0 |
| Compare.LT | assertions.h:82 | 1 when actual < ref, otherwise 0 |
| Compare.LE | assertions.h:84 | 1 when actual <= ref, otherwise 0 |
| Compare.GT | assertions.h:86 | 1 when actual > ref, otherwise 0 |
| Compare.GE | assertions.h:88 | 1 when actual >= ref, otherwise 0 |
| Compare.Zero | assertions.h:90 | 1 when the value is zero, otherwise 0 |
| Compare.HelpersRelated | assertions.h:78-90 | the helpers relate the way the C operators do: EQ is symmetric and reflexive, GT and GE mirror LT and LE, GE is Not(LT), and Zero is EQ with 0 and is Not |
| Compare.HelperExamples | assertions.h:78-90 | EQ(1, 1) holds and EQ(0, 1) does not; Zero(0) holds and Zero(1) does not; LT(1, 2) holds and LT(2, 1) does not |
| Assertion.Truthy | assertions.h:67 | a value is truthy when it is a non-zero integer or a string; `Assertion.NotNot` states its link with `!!` |
| Assertion.Expand | assertions.h:65-72 | the statement `Assert_impl` expands to; `Assertion.ExpandDefinedIff` and `Assertion.EmptyConditionRejected` state when it compiles |
| Assertion.AssertImpl | assertions.h:74 | `Assert`; `Assertion.AssertImplRuns`, `Assertion.PassIffTruthy` and `Assertion.ConditionEvaluatedOnce` state what it runs |
| Assertion.NotNot | assertions.h:67 | `!!` normalises the condition to 0 or 1, and gives 1 exactly when the condition is truthy |
| Assertion.Values | assertions.h:40-42 | one value per operand, in order |
| Assertion.EvalAll | assertions.h:42 | one value per caller expression, in order |
| Assertion.Execute | assertions.h:65-72 | a run passes exactly when the condition is truthy; a pass evaluates only the condition; a failure then evaluates the report's caller expressions and writes the formatted report |
| Assertion.ExprTextsOfExprs | assertions.h:42 | the caller expressions among the value operands are the values, in order |
| Assertion.ExprTextsAppend | assertions.h:42 | the caller expressions of two operand lists are those of each, in order |
| Assertion.ExpandDefinedIff | assertions.h:65-74 | for 1 to 62 arguments the assertion compiles exactly when its condition is not empty and it has one argument, or its second is empty or a plain string literal and no later argument is empty; its condition is the first argument |
| Assertion.EmptyConditionRejected | assertions.h:67 | an assertion with an empty condition never compiles |
| Assertion.MessageExprTexts | assertions.h:42 | the caller expressions among a message report's operands are its values, in order |
| Assertion.ReportExprTexts | assertions.h:40-42 | the caller expressions among a report's operands are arguments 3 .. k, in order; the condition and the message are not among them |
| Assertion.ConditionEvaluatedOnce | assertions.h:65-72 | the condition is evaluated exactly once, first; a pass evaluates nothing more; a failure then evaluates exactly arguments 3 .. k, in order |
| Assertion.PassIffTruthy | assertions.h:67-68 | the assertion passes exactly when its condition is non-zero |
| Assertion.AssertImplRuns | assertions.h:65-74 | for 1 to 62 arguments that compile, Assert runs the first argument as the condition with the dispatcher's report |
| Assertion.MessageValues | assertions.h:42 | the operands of a message report evaluate to the file, the line and the values of arguments 3 .. k |
| Assertion.NoMessageBody | assertions.h:40 | the corrected no-message body writes the condition text between the words around it |
| Assertion.NoMessageText | assertions.h:40 | the corrected no-message report writes `[file:line] Assertion failed: ` followed by the condition in backquotes and a newline, whatever characters the condition holds |
| Assertion.FailureNoMessage | assertions.h:40-72 | as written, a failing one-argument assertion whose condition has no `%` evaluates only the condition and writes `[file:line] Assertion failed: ` followed by the condition in backquotes and a newline |
| Assertion.FailureNoMessagePercent | assertions.h:40-72 | as written, a failing one-argument assertion whose condition `before % after` has a `%` that starts an invalid specification evaluates only the condition and has an undefined diagnostic |
| Assertion.FailureNoMessageCorrected | assertions.h:40-72 | corrected, a failing one-argument assertion writes `[file:line] Assertion failed: ` followed by the condition in backquotes and a newline, whatever characters the condition holds |
| Assertion.FailureWithMessage | assertions.h:41-72 | through line 41 as written or line 42, a failing assertion with a message evaluates the condition, then arguments 3 .. k, and writes `[file:line] ` before the message plus a newline formatted with those values in order |
| Assertion.StringThenLiteral | assertions.h:41 | a `%s` followed by `%`-free text writes the operand, then the text |
| Assertion.MessageOnlyText | assertions.h:41 | the corrected message-only format writes `[file:line] `, the message whatever it holds, and the text after the `%s` |
| Assertion.MessageOnlyCallText | assertions.h:41 | the corrected message-only call writes `[file:line] `, the message verbatim and a newline |
| Assertion.FailureMessageCorrected | assertions.h:41-72 | corrected, a failing message-only assertion evaluates only the condition and writes `[file:line] `, the message verbatim and a newline, whatever characters the message holds |
| Assertion.FailureMessageVerbatim | assertions.h:41 | for both definitions, a failing assertion whose message has no `%` writes `[file:line] `, the message and a newline |
| Assertion.FailureEmptyMessage | assertions.h:41 | for both definitions, `Assert(c, )` compiles, and on failure writes `[file:line] ` and a newline |
| Assertion.IntMessageText | assertions.h:42 | a template with one `%d` between `%`-free parts writes the value's numeral between them |
| Assertion.FailureWithIntValue | assertions.h:42 | a message with one `%d` between `%`-free parts and a non-empty value argument writes those parts around the value's decimal numeral |
| Assertion.DirectiveMessageUndefined | assertions.h:41 | a message starting with `%d` or `%s`, with no operands, renders as undefined |
| Assertion.MessageDirectiveInterpreted | assertions.h:41 | as written, a failing message-only assertion whose message starts with `%d` or `%s` has an undefined diagnostic, because the message is part of the format |
| Assertion.TooManyArguments | assertions.h:22-74 | from 63 arguments on the assertion does not compile unless the 63rd argument is the token `2` |
| Assertion.AsWrittenValues | assertions.h:40 | the as-written no-message report has only the file and the line as operands |
| Assertion.AsWrittenBodyText | assertions.h:40 | as written, a condition without `%` is copied into the body verbatim |
| Assertion.AsWrittenWithoutPercent | assertions.h:40 | as written, the no-message report gives the intended text for a condition without `%` |
| Assertion.AsWrittenBodyUndefined | assertions.h:40 | as written, a `%` in the condition that starts an invalid specification makes the body undefined |
| Assertion.AsWrittenPercentUndefined | assertions.h:40 | as written, a condition `before % after` whose `%` starts an invalid specification gives an undefined report |
| Assertion.PercentConditionExample | assertions.h:40 | the condition `x % 2 == 0` is such a condition |
| Scenarios.PassingEquality | assertions.h:65-78 | `Assert(EQ(1, 1))` passes, evaluating only its condition |
| Scenarios.FailingEquality | assertions.h:40-78 | `Assert(EQ(0, 1))` fails with `[file:line] Assertion failed: ` followed by `((0) == (1))` in backquotes |
| Scenarios.FailingWithMessage | assertions.h:41-74 | `Assert(0, "bad value")` fails with `[file:line] bad value` |
| Scenarios.CorrectedPercentMessage | assertions.h:41-74 | through the corrected line 41, `Assert(0, "at 100%")` fails with `[file:line] at 100%`, the `%` written as is |
| Scenarios.FailingWithValue | assertions.h:42-74 | `Assert(0, "bad value: %d", 7)` fails with `[file:line] bad value: 7`, evaluating the condition and then `7` |

## Left out

- Writing to stderr and `abort()` (assertions.h:69-70): these are I/O and
  process termination. They are the terminal `Failed(diagnostic)` outcome.
- `__FILE__` and `__LINE__` (assertions.h:74): the file and the line are
  plain inputs.
- Evaluating C expressions: an `Assertion.Evaluator` parameter gives each
  caller expression's value. Integer width, side effects and the C
  expression grammar are not modelled. A string-literal condition is truthy
  because its address is never null.
- The text of `#Condition`: the condition is an opaque string, already
  macro-expanded. Stringizing's whitespace rules and escaping of quotes and
  backslashes are not modelled.
- Dispatch.LiteralBody: a message whose characters hold a `"` or a `\`, that
  is, one with escape sequences or made of adjacent literals, is not
  modelled, and neither is a literal with an encoding prefix such as
  `u8"..."` or `L"..."`. Each gives None, so Assertion.ExpandDefinedIff and
  Dispatch.ReportFormats treat it as not compiling, although C accepts a
  prefixed or escaped literal (a wide `L"..."` literal then fails to
  concatenate with the narrow format, which the model does not distinguish).
- `fprintf` beyond `%%`, `%s`, `%d` and `%i` with no flags, width, precision
  or length: any other specification that ends on a conversion specifier
  character is `Unmodelled`, including those the standard leaves undefined.
- The order of evaluating `fprintf`'s operands, which C leaves unspecified:
  the model lists them in argument order.
- `ASSERTS_EXPAND` (assertions.h:20): the identity. Rescanning is modelled
  only where it matters, where `##` pastes the selector's value.
- `do { } while (0)` (assertions.h:66-72): a statement-grouping idiom with no
  behaviour of its own.
- The comparison helpers over pointers and aggregates, where `EQ` compares
  addresses: the helpers are over integers only.
- The missing outer parentheses of `Zero` (assertions.h:90): a precedence
  hazard of textual expansion inside larger expressions. `Compare.Zero` is
  the value of `Zero(v)` on its own.
- Compilation of the expansion: `None` stands for the expansions listed
  above that do not compile, without distinguishing the diagnostics a
  compiler would give. Compile errors inside the caller's own expressions
  are not modelled.
- The C23 rule that lets `...` receive no argument at all: the model follows
  C11, which needs more arguments than named parameters; the pad always
  supplies them.
- Assertion.FailureNoMessage: holds only for conditions without `%`, because
  line 40 splices the condition into the format.
  `Assertion.FailureNoMessagePercent` covers a `%` that starts an invalid
  specification. A `%` that starts a valid one, such as `%d`, is not stated.
- Assertion.FailureMessageVerbatim: holds, for both definitions, only for
  messages without `%`, because line 41 as written splices the message into
  the format. `Assertion.MessageDirectiveInterpreted` covers a message that
  starts with `%d` or `%s` as written, and `Assertion.FailureMessageCorrected`
  every message for the corrected definition.

## Findings

| source | as written | input that shows it | evidently intended | confidence | as-written member | corrected member |
|---|---|---|---|---|---|---|
| assertions.h:40 | `#Condition` is spliced into the format string, so `fprintf` reads any `%` in the condition as a conversion specification | `Assert(x % 2 == 0)` with x odd: the format holds `% 2 ` followed by a backquote, which is invalid, so the behaviour is undefined | write the condition text verbatim, by passing it as a `%s` operand | not executed | Assertion.FailureNoMessagePercent | Assertion.FailureNoMessageCorrected |
| assertions.h:41 | the message `Head` is spliced into the format string, so `fprintf` reads any `%` in a message given without values as a conversion specification | `Assert(c, "%d left")` with c false: the `%d` has no operand, so the behaviour is undefined | write the message verbatim, by passing it as a `%s` operand | not executed | Assertion.MessageDirectiveInterpreted | Assertion.FailureMessageCorrected |
