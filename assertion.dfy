/**
 * Assert_impl and Assert of assertions.h: the statement an assertion expands
 * to, and what running it does. The condition is evaluated once and
 * normalised with `!!`; when it is zero, one report is written to stderr and
 * abort() ends the process.
 *
 * Evaluating a caller expression is a parameter (an Evaluator), as the C
 * expression language is not modelled; file and line are inputs.
 */
module Assertion {
  import opened Wrappers
  import opened Variadic
  import opened Printf
  import opened Dispatch
  import Compare

  /**
   * The statement Assert_impl expands to:
   * do { int passed = !!(condition); if (!passed) { report; abort(); } } while (0).
   */
  datatype Stmt = Check(condition: Arg, report: Call)

  /** How an assertion ends: it returns with no output, or it writes one diagnostic and aborts. */
  datatype Outcome = Passed | Failed(diagnostic: Rendering)

  /** The caller expressions a run evaluates, in order, and how it ends. */
  datatype Run = Run(evaluated: seq<Arg>, outcome: Outcome)

  /** The value each caller expression has when it is evaluated. */
  type Evaluator = Arg -> Value

  /** C's test for success: a non-zero int, or a string literal, whose address is never null. */
  predicate Truthy(v: Value)
  {
    match v
    case Int(i) => i != 0
    case Str(_) => true
  }

  /** `!!(v)`: the condition normalised to 0 or 1. */
  function NotNot(v: Value): (passed: int)
    ensures passed == 0 || passed == 1
    ensures passed == 1 <==> Truthy(v)
  {
    match v
    case Int(i) => Compare.Not(Compare.Not(i))
    case Str(_) => Compare.Not(0)
  }

  /** The value of one fprintf operand when the call is made. */
  function OperandValue(o: Operand, eval: Evaluator): Value
  {
    match o
    case FileName(name) => Str(name)
    case LineNumber(line) => Int(line)
    case Literal(text) => Str(text)
    case Expr(text) => eval(text)
  }

  /** The values of fprintf's operands, in order. */
  function Values(ops: seq<Operand>, eval: Evaluator): (vs: seq<Value>)
    ensures |vs| == |ops|
    ensures forall i :: 0 <= i < |ops| ==> vs[i] == OperandValue(ops[i], eval)
  {
    if ops == [] then [] else [OperandValue(ops[0], eval)] + Values(ops[1..], eval)
  }

  /** The caller expressions among fprintf's operands, in order. */
  function ExprTexts(ops: seq<Operand>): seq<Arg>
  {
    if ops == [] then []
    else if ops[0].Expr? then [ops[0].text] + ExprTexts(ops[1..])
    else ExprTexts(ops[1..])
  }

  /**
   * Assert_impl(File, Line, ...): the statement it expands to, with the given
   * definition of ASSERTS_VA_PRINTF_HELPER_0; None where the expansion does
   * not compile. An empty condition leaves `int passed = !!();`, which is no
   * C statement.
   */
  function Expand(v: Helpers, file: string, line: int, args: seq<Arg>): Option<Stmt>
    requires |args| >= 1
  {
    match (Head(args), Report(v, file, line, args))
    case (Some(condition), Some(report)) => if condition == [] then None else Some(Check(condition, report))
    case _ => None
  }

  /**
   * Running the expanded statement: the condition is evaluated exactly once,
   * first; only on failure are the report's operands evaluated and one
   * diagnostic written.
   */
  function Execute(s: Stmt, eval: Evaluator): (r: Run)
    ensures r.outcome.Passed? <==> Truthy(eval(s.condition))
    ensures r.outcome.Passed? ==> r.evaluated == [s.condition]
    ensures r.outcome.Failed? ==> r.evaluated == [s.condition] + ExprTexts(s.report.operands)
    ensures r.outcome.Failed? ==> r.outcome.diagnostic == Format(s.report.format, Values(s.report.operands, eval))
  {
    var passed := NotNot(eval(s.condition));
    if passed != 0 then Run([s.condition], Passed)
    else
      var diagnostic := Format(s.report.format, Values(s.report.operands, eval));
      Run([s.condition] + ExprTexts(s.report.operands), Failed(diagnostic))
  }

  /**
   * Assert(...) is Assert_impl(__FILE__, __LINE__, ...): None where the
   * expansion does not compile, otherwise the run. The header's own
   * assertion is AssertImpl(AsWritten, ...).
   */
  function AssertImpl(v: Helpers, file: string, line: int, args: seq<Arg>, eval: Evaluator): Option<Run>
    requires |args| >= 1
  {
    match Expand(v, file, line, args)
    case Some(s) => Some(Execute(s, eval))
    case None => None
  }

  /** The values of caller expressions, in order. */
  function EvalAll(xs: seq<Arg>, eval: Evaluator): (vs: seq<Value>)
    ensures |vs| == |xs|
    ensures forall i :: 0 <= i < |xs| ==> vs[i] == eval(xs[i])
  {
    if xs == [] then [] else [eval(xs[0])] + EvalAll(xs[1..], eval)
  }

  /** The `[file:line] ` prefix of every diagnostic. */
  function Location(file: string, line: int): string
  {
    "[" + file + ":" + Decimal(line) + "] "
  }

  /** Arguments 3 .. k: the values of the format, empty for fewer than three arguments. */
  function FormatArgs(args: seq<Arg>): (vals: seq<Arg>)
    ensures |args| >= 2 ==> vals == args[2..]
    ensures |args| < 3 ==> vals == []
  {
    if |args| >= 2 then args[2..] else []
  }

  /** Operands none of which is a caller expression evaluate no caller expression. */
  lemma {:induction false} NoExprTexts(ops: seq<Operand>)
    requires forall i :: 0 <= i < |ops| ==> !ops[i].Expr?
    ensures ExprTexts(ops) == []
  {
    if ops != [] {
      NoExprTexts(ops[1..]);
    }
  }

  /** Regrouping the five pieces of a diagnostic. */
  lemma Concat5(a: string, b: string, c: string, d: string, e: string)
    ensures a + (b + (c + (d + e))) == a + b + c + d + e
  {
  }

  /** The caller expressions among the operands of Exprs(xs) are xs. */
  lemma {:induction false} ExprTextsOfExprs(xs: seq<Arg>)
    ensures ExprTexts(Exprs(xs)) == xs
  {
    if xs != [] {
      assert Exprs(xs)[1..] == Exprs(xs[1..]);
      ExprTextsOfExprs(xs[1..]);
    }
  }

  /** Operands that are not caller expressions add nothing to the evaluated expressions. */
  lemma {:induction false} ExprTextsAppend(a: seq<Operand>, b: seq<Operand>)
    ensures ExprTexts(a + b) == ExprTexts(a) + ExprTexts(b)
    decreases |a|
  {
    if a != [] {
      var ab := a + b;
      assert ab[0] == a[0];
      assert ab[1..] == a[1..] + b by {
        assert |ab[1..]| == |a[1..] + b|;
        forall i | 0 <= i < |ab[1..]|
          ensures ab[1..][i] == (a[1..] + b)[i]
        {
          assert ab[1..][i] == ab[i + 1];
        }
      }
      ExprTextsAppend(a[1..], b);
    } else {
      assert a + b == b;
    }
  }

  /**
   * For 1 to 62 arguments the assertion compiles exactly when its condition
   * is not empty and it has one argument, or its second argument is a plain
   * string literal or empty and none of the arguments after it is empty; its
   * condition is the first argument.
   */
  lemma ExpandDefinedIff(v: Helpers, file: string, line: int, args: seq<Arg>)
    requires 1 <= |args| <= 62
    ensures Expand(v, file, line, args).Some?
        <==> (args[0] != [] && (|args| == 1 || ((args[1] == [] || PlainLiteral(args[1]))
                                               && forall i :: 2 <= i < |args| ==> args[i] != [])))
    ensures Expand(v, file, line, args).Some? ==> Expand(v, file, line, args).value.condition == args[0]
  {
    HeadTailSplit(args);
    ReportFormats(v, file, line, args);
  }

  /** An empty condition never compiles, whatever the other arguments. */
  lemma EmptyConditionRejected(v: Helpers, file: string, line: int, args: seq<Arg>)
    requires |args| >= 1 && args[0] == []
    ensures Expand(v, file, line, args) == None
  {
    HelpersProject(Rescanned(SelectArg(["_"] + args)), args);
  }

  /** The caller expressions among a report's operands are arguments 3 .. k, in order. */
  lemma ReportExprTexts(v: Helpers, file: string, line: int, args: seq<Arg>)
    requires 1 <= |args| <= 62
    requires Report(v, file, line, args).Some?
    ensures ExprTexts(Report(v, file, line, args).value.operands) == FormatArgs(args)
  {
    ReportByShape(v, file, line, args);
    var ops := Report(v, file, line, args).value.operands;
    if |args| == 1 || (|args| == 2 && v == Corrected) {
      NoExprTexts(ops);
    } else {
      assert ops == [FileName(file), LineNumber(line)] + Exprs(args[2..]);
      MessageExprTexts(file, line, args[2..]);
    }
  }

  /** The caller expressions among a message report's operands are its values. */
  lemma MessageExprTexts(file: string, line: int, values: seq<Arg>)
    ensures ExprTexts([FileName(file), LineNumber(line)] + Exprs(values)) == values
  {
    var ops0 := [FileName(file), LineNumber(line)];
    NoExprTexts(ops0);
    ExprTextsAppend(ops0, Exprs(values));
    ExprTextsOfExprs(values);
  }

  /**
   * The condition is evaluated exactly once, before anything else; the pass
   * path evaluates nothing more, and the fail path then evaluates exactly the
   * format values, arguments 3 .. k, in order; the message is never evaluated.
   */
  lemma ConditionEvaluatedOnce(v: Helpers, file: string, line: int, args: seq<Arg>, eval: Evaluator)
    requires 1 <= |args| <= 62
    requires AssertImpl(v, file, line, args, eval).Some?
    ensures AssertImpl(v, file, line, args, eval).value.evaluated
         == [args[0]] + (if AssertImpl(v, file, line, args, eval).value.outcome.Passed? then [] else FormatArgs(args))
  {
    ExpandDefinedIff(v, file, line, args);
    var s := Expand(v, file, line, args).value;
    assert s.report == Report(v, file, line, args).value;
    ReportExprTexts(v, file, line, args);
  }

  /** The assertion passes exactly when its condition is non-zero, and a pass writes nothing. */
  lemma PassIffTruthy(v: Helpers, file: string, line: int, args: seq<Arg>, eval: Evaluator)
    requires 1 <= |args| <= 62
    requires AssertImpl(v, file, line, args, eval).Some?
    ensures AssertImpl(v, file, line, args, eval).value.outcome == Passed <==> Truthy(eval(args[0]))
    ensures !Truthy(eval(args[0])) ==> AssertImpl(v, file, line, args, eval).value.outcome.Failed?
  {
    ExpandDefinedIff(v, file, line, args);
  }

  /** The `[file:line] ` prefix followed by a template: the file and line are consumed first. */
  lemma LocationThen(file: string, line: int, rest: string, vs: seq<Value>)
    ensures Format(LocationFormat + rest, [Str(file), Int(line)] + vs) == Prepend(Location(file, line), Format(rest, vs))
  {
    LocationPrefix(file, line, rest, vs);
  }

  /** The operands of the corrected no-message report: file, line and the condition text. */
  lemma NoMessageValues(file: string, line: int, condition: Arg, eval: Evaluator)
    ensures Values(NoMessageCall(file, line, condition).operands, eval) == [Str(file), Int(line)] + [Str(condition)]
  {
  }

  /** The body of the corrected no-message template writes the condition text between the words. */
  lemma NoMessageBody(condition: Arg)
    ensures Format(FailedOpen + "%s" + FailedClose, [Str(condition)]) == Text(FailedOpen + condition + FailedClose)
  {
    assert FailedOpen + "%s" + FailedClose == FailedOpen + ("%s" + FailedClose);
    FormatStringBetween(FailedOpen, condition, FailedClose, []);
    assert [Str(condition)] + [] == [Str(condition)];
  }

  /** The operands of a message report: file, line and the values of the caller expressions. */
  lemma {:induction false} MessageValues(file: string, line: int, xs: seq<Arg>, eval: Evaluator)
    ensures Values([FileName(file), LineNumber(line)] + Exprs(xs), eval) == [Str(file), Int(line)] + EvalAll(xs, eval)
  {
    var ops := [FileName(file), LineNumber(line)] + Exprs(xs);
    var vs := [Str(file), Int(line)] + EvalAll(xs, eval);
    assert |Values(ops, eval)| == |vs|;
    forall i | 0 <= i < |vs|
      ensures Values(ops, eval)[i] == vs[i]
    {
      if i >= 2 {
        assert ops[i] == Exprs(xs)[i - 2];
      }
    }
  }

  /** The corrected no-message report writes the condition text verbatim, whatever characters it holds. */
  lemma NoMessageText(file: string, line: int, condition: Arg, eval: Evaluator)
    ensures Format(NoMessageCall(file, line, condition).format, Values(NoMessageCall(file, line, condition).operands, eval))
         == Text(Location(file, line) + (FailedOpen + condition + FailedClose))
  {
    NoMessageValues(file, line, condition, eval);
    LocationThen(file, line, FailedOpen + "%s" + FailedClose, [Str(condition)]);
    NoMessageBody(condition);
  }

  /** For 1 to 62 arguments that compile, the run is that of the condition with the report. */
  lemma AssertImplRuns(v: Helpers, file: string, line: int, args: seq<Arg>, eval: Evaluator)
    requires 1 <= |args| <= 62 && args[0] != []
    requires Report(v, file, line, args).Some?
    ensures AssertImpl(v, file, line, args, eval) == Some(Execute(Check(args[0], Report(v, file, line, args).value), eval))
  {
    HeadTailSplit(args);
  }

  /**
   * One argument, as written: the failure writes `[file:line] Assertion
   * failed: `condition`` and a newline, for a condition without `%`.
   */
  lemma FailureNoMessage(file: string, line: int, condition: Arg, eval: Evaluator)
    requires condition != [] && '%' !in condition
    requires !Truthy(eval(condition))
    ensures AssertImpl(AsWritten, file, line, [condition], eval)
         == Some(Run([condition], Failed(Text(Location(file, line) + (FailedOpen + condition + FailedClose)))))
  {
    var args := [condition];
    ReportFormats(AsWritten, file, line, args);
    var call := NoMessageCallAsWritten(file, line, condition);
    assert Report(AsWritten, file, line, args) == Some(call);
    AssertImplRuns(AsWritten, file, line, args, eval);
    ReportExprTexts(AsWritten, file, line, args);
    AsWrittenWithoutPercent(file, line, condition, eval);
    var r := Execute(Check(condition, call), eval);
    assert r.evaluated == [condition];
  }

  /**
   * One argument, as written, with a `%` in the condition that starts an
   * invalid conversion specification: the failure's diagnostic is undefined.
   */
  lemma FailureNoMessagePercent(file: string, line: int, before: string, after: string, eval: Evaluator)
    requires '%' !in before
    requires InvalidSpecification(after + FailedClose)
    requires !Truthy(eval(before + "%" + after))
    ensures AssertImpl(AsWritten, file, line, [before + "%" + after], eval)
         == Some(Run([before + "%" + after], Failed(Undefined)))
  {
    var condition := before + "%" + after;
    var args := [condition];
    assert condition != [] by { assert |condition| >= 1; }
    ReportFormats(AsWritten, file, line, args);
    var call := NoMessageCallAsWritten(file, line, condition);
    assert Report(AsWritten, file, line, args) == Some(call);
    AssertImplRuns(AsWritten, file, line, args, eval);
    ReportExprTexts(AsWritten, file, line, args);
    AsWrittenPercentUndefined(file, line, before, after, eval);
    var r := Execute(Check(condition, call), eval);
    assert r.evaluated == [condition];
  }

  /**
   * One argument, corrected: the failure writes `[file:line] Assertion
   * failed: `condition`` and a newline, whatever characters the condition holds.
   */
  lemma FailureNoMessageCorrected(file: string, line: int, condition: Arg, eval: Evaluator)
    requires condition != []
    requires !Truthy(eval(condition))
    ensures AssertImpl(Corrected, file, line, [condition], eval)
         == Some(Run([condition], Failed(Text(Location(file, line) + (FailedOpen + condition + FailedClose)))))
  {
    var args := [condition];
    ReportFormats(Corrected, file, line, args);
    var call := NoMessageCall(file, line, condition);
    assert Report(Corrected, file, line, args) == Some(call);
    AssertImplRuns(Corrected, file, line, args, eval);
    ReportExprTexts(Corrected, file, line, args);
    NoMessageText(file, line, condition, eval);
    var r := Execute(Check(condition, call), eval);
    assert r.evaluated == [condition];
  }

  /**
   * Two or more arguments through line 41 as written or line 42: the message
   * literal, followed by a newline, is the template; it is formatted with the
   * values of arguments 3 .. k, in order, after the `[file:line] ` prefix.
   */
  lemma FailureWithMessage(v: Helpers, file: string, line: int, args: seq<Arg>, eval: Evaluator)
    requires 2 <= |args| <= 62 && args[0] != []
    requires v == AsWritten || |args| >= 3
    requires LiteralBody(args[1]).Some?
    requires forall i :: 2 <= i < |args| ==> args[i] != []
    requires !Truthy(eval(args[0]))
    ensures AssertImpl(v, file, line, args, eval)
         == Some(Run([args[0]] + args[2..],
                     Failed(Prepend(Location(file, line), Format(LiteralBody(args[1]).value + "\n", EvalAll(args[2..], eval))))))
  {
    ReportFormats(v, file, line, args);
    var m := LiteralBody(args[1]).value;
    var call := Report(v, file, line, args).value;
    AssertImplRuns(v, file, line, args, eval);
    ReportExprTexts(v, file, line, args);
    MessageValues(file, line, args[2..], eval);
    LocationThen(file, line, m + "\n", EvalAll(args[2..], eval));
  }

  /** The corrected message-only template writes the message text verbatim after the location. */
  lemma MessageOnlyText(file: string, line: int, m: string, b: string)
    requires '%' !in b
    ensures Format(LocationFormat + ("%s" + b), [Str(file), Int(line)] + [Str(m)]) == Text(Location(file, line) + m + b)
  {
    LocationThen(file, line, "%s" + b, [Str(m)]);
    StringThenLiteral(m, b);
    assert Location(file, line) + (m + b) == Location(file, line) + m + b;
  }

  /** A template of one `%s` and directive-free text writes the operand, then the text. */
  lemma StringThenLiteral(m: string, b: string)
    requires '%' !in b
    ensures Format("%s" + b, [Str(m)]) == Text(m + b)
  {
    assert [Str(m)] == [Str(m)] + [];
    FormatString(m, b, []);
    FormatLiteral(b, []);
  }

  /** The corrected message-only call writes the message text verbatim after the location. */
  lemma MessageOnlyCallText(file: string, line: int, message: Arg, eval: Evaluator)
    requires LiteralBody(message).Some?
    ensures Format(MessageOnlyCall(file, line, message).value.format, Values(MessageOnlyCall(file, line, message).value.operands, eval))
         == Text(Location(file, line) + LiteralBody(message).value + "\n")
  {
    var m := LiteralBody(message).value;
    assert Values(MessageOnlyCall(file, line, message).value.operands, eval) == [Str(file), Int(line)] + [Str(m)];
    assert "%s\n" == "%s" + "\n";
    MessageOnlyText(file, line, m, "\n");
  }

  /**
   * A message-only assertion through the corrected line 41: the failure writes
   * the message verbatim after the location, whatever characters it holds.
   */
  lemma FailureMessageCorrected(file: string, line: int, condition: Arg, message: Arg, eval: Evaluator)
    requires LiteralBody(message).Some?
    requires condition != [] && !Truthy(eval(condition))
    ensures AssertImpl(Corrected, file, line, [condition, message], eval)
         == Some(Run([condition], Failed(Text(Location(file, line) + LiteralBody(message).value + "\n"))))
  {
    var args := [condition, message];
    MessageOnlyCorrected(file, line, condition, message);
    var call := MessageOnlyCall(file, line, message).value;
    AssertImplRuns(Corrected, file, line, args, eval);
    NoExprTexts(call.operands);
    MessageOnlyCallText(file, line, message, eval);
    var r := Execute(Check(condition, call), eval);
    assert r.evaluated == [condition];
  }

  /**
   * A message without `%` directives is written verbatim. As written, the
   * message is part of the format, so this holds only for directive-free
   * messages; corrected, it holds for every message.
   */
  lemma FailureMessageVerbatim(v: Helpers, file: string, line: int, condition: Arg, message: Arg, eval: Evaluator)
    requires LiteralBody(message).Some? && '%' !in LiteralBody(message).value
    requires condition != [] && !Truthy(eval(condition))
    ensures AssertImpl(v, file, line, [condition, message], eval)
         == Some(Run([condition], Failed(Text(Location(file, line) + LiteralBody(message).value + "\n"))))
  {
    if v == Corrected {
      FailureMessageCorrected(file, line, condition, message, eval);
    } else {
      var args := [condition, message];
      var m := LiteralBody(message).value;
      assert args[0] == condition && args[1] == message && args[2..] == [];
      assert EvalAll(args[2..], eval) == [];
      assert '%' !in m + "\n";
      FormatLiteral(m + "\n", []);
      assert Prepend(Location(file, line), Format(m + "\n", [])) == Text(Location(file, line) + m + "\n");
      assert [args[0]] + args[2..] == [condition];
      FailureWithMessage(v, file, line, args, eval);
    }
  }

  /** `Assert(condition, )`: the empty message leaves the format `[%s:%d] ` and a newline. */
  lemma FailureEmptyMessage(v: Helpers, file: string, line: int, condition: Arg, eval: Evaluator)
    requires condition != [] && !Truthy(eval(condition))
    ensures AssertImpl(v, file, line, [condition, []], eval)
         == Some(Run([condition], Failed(Text(Location(file, line) + "\n"))))
  {
    FailureMessageVerbatim(v, file, line, condition, [], eval);
    assert Location(file, line) + [] + "\n" == Location(file, line) + "\n";
  }

  /**
   * Three arguments whose message holds one `%d` between directive-free
   * parts: the failure writes those parts around the value's decimal numeral.
   */
  lemma FailureWithIntValue(v: Helpers, file: string, line: int, condition: Arg, message: Arg, value: Arg,
                            before: string, after: string, n: int, eval: Evaluator)
    requires LiteralBody(message) == Some(before + "%d" + after)
    requires '%' !in before && '%' !in after
    requires condition != [] && value != [] && !Truthy(eval(condition)) && eval(value) == Int(n)
    ensures AssertImpl(v, file, line, [condition, message, value], eval)
         == Some(Run([condition, value], Failed(Text(Location(file, line) + before + Decimal(n) + after + "\n"))))
  {
    var args := [condition, message, value];
    assert args[0] == condition && args[1] == message && args[2..] == [value];
    assert [args[0]] + args[2..] == [condition, value];
    var vs := EvalAll(args[2..], eval);
    assert vs == [Int(n)];
    var rest := after + "\n";
    assert '%' !in rest;
    assert LiteralBody(message).value + "\n" == before + ("%d" + rest);
    IntMessageText(before, rest, n);
    Concat5(Location(file, line), before, Decimal(n), after, "\n");
    FailureWithMessage(v, file, line, args, eval);
  }

  /** A template with one `%d` between directive-free parts writes the value's numeral between them. */
  lemma IntMessageText(before: string, rest: string, n: int)
    requires '%' !in before && '%' !in rest
    ensures Format(before + ("%d" + rest), [Int(n)]) == Text(before + (Decimal(n) + rest))
  {
    FormatLiteralPrefix(before, "%d" + rest, [Int(n)]);
    assert [Int(n)] == [Int(n)] + [];
    FormatInt(n, rest, []);
    FormatLiteral(rest, []);
  }

  /** A template that starts with `%d` or `%s` and has no operand is undefined. */
  lemma DirectiveMessageUndefined(m: string)
    requires |m| >= 2 && m[..2] in {"%d", "%s"}
    ensures Format(m + "\n", []) == Undefined
  {
    var t := m + "\n";
    assert m[..2][0] == m[0] && m[..2][1] == m[1];
    assert t[0] == m[0] == '%' && t[1] == m[1] && t[1] in {'d', 's'};
    FormatDirective(t, []);
  }

  /**
   * A message-only assertion through line 41 as written whose message starts
   * with `%d` or `%s` reads an operand that is not there: the diagnostic is
   * undefined.
   */
  lemma MessageDirectiveInterpreted(file: string, line: int, condition: Arg, message: Arg, eval: Evaluator)
    requires LiteralBody(message).Some?
    requires |LiteralBody(message).value| >= 2 && LiteralBody(message).value[..2] in {"%d", "%s"}
    requires condition != [] && !Truthy(eval(condition))
    ensures AssertImpl(AsWritten, file, line, [condition, message], eval) == Some(Run([condition], Failed(Undefined)))
  {
    var args := [condition, message];
    var m := LiteralBody(message).value;
    assert args[0] == condition && args[1] == message && args[2..] == [];
    assert EvalAll(args[2..], eval) == [];
    DirectiveMessageUndefined(m);
    assert [args[0]] + args[2..] == [condition];
    FailureWithMessage(AsWritten, file, line, args, eval);
  }

  /** From 63 arguments on the assertion does not compile unless the 63rd argument is the token `2`. */
  lemma TooManyArguments(v: Helpers, file: string, line: int, args: seq<Arg>, eval: Evaluator)
    requires |args| >= 63 && args[62] != "2"
    ensures AssertImpl(v, file, line, args, eval) == None
  {
    SplitDefinedIff(args);
  }

  /**
   * Line 40 as written splices the condition into the format. For a condition
   * without `%` it writes the intended text.
   */
  lemma AsWrittenWithoutPercent(file: string, line: int, condition: Arg, eval: Evaluator)
    requires '%' !in condition
    ensures Format(NoMessageCallAsWritten(file, line, condition).format,
                   Values(NoMessageCallAsWritten(file, line, condition).operands, eval))
         == Text(Location(file, line) + (FailedOpen + condition + FailedClose))
  {
    AsWrittenValues(file, line, condition, eval);
    LocationThen(file, line, FailedOpen + condition + FailedClose, []);
    AsWrittenBodyText(condition);
  }

  /** The as-written body on a condition without `%`: the words around the condition, verbatim. */
  lemma AsWrittenBodyText(condition: Arg)
    requires '%' !in condition
    ensures Format(FailedOpen + condition + FailedClose, []) == Text(FailedOpen + condition + FailedClose)
  {
    var a := FailedOpen + condition;
    assert '%' !in FailedOpen && '%' !in FailedClose;
    assert forall c :: c in a ==> c in FailedOpen || c in condition;
    assert forall c :: c in a + FailedClose ==> c in a || c in FailedClose;
    FormatLiteral(a + FailedClose, []);
  }

  /** The operands of the as-written no-message report: the file and the line only. */
  lemma AsWrittenValues(file: string, line: int, condition: Arg, eval: Evaluator)
    ensures Values(NoMessageCallAsWritten(file, line, condition).operands, eval) == [Str(file), Int(line)] + []
  {
  }

  /** The as-written body on a condition `before % after` with an invalid specification after the `%`. */
  lemma AsWrittenBodyUndefined(before: string, after: string)
    requires '%' !in before
    requires InvalidSpecification(after + FailedClose)
    ensures Format(FailedOpen + (before + "%" + after) + FailedClose, []) == Undefined
  {
    assert FailedOpen + (before + "%" + after) + FailedClose == (FailedOpen + before) + ("%" + (after + FailedClose));
    assert '%' !in FailedOpen + before;
    FormatLiteralPrefix(FailedOpen + before, "%" + (after + FailedClose), []);
    FormatInvalid(after + FailedClose, []);
  }

  /**
   * Line 40 as written, on a condition with a `%` that starts an invalid
   * conversion specification: the report is undefined, where the corrected
   * report writes the condition (NoMessageText).
   */
  lemma AsWrittenPercentUndefined(file: string, line: int, before: string, after: string, eval: Evaluator)
    requires '%' !in before
    requires InvalidSpecification(after + FailedClose)
    ensures Format(NoMessageCallAsWritten(file, line, before + "%" + after).format,
                   Values(NoMessageCallAsWritten(file, line, before + "%" + after).operands, eval))
         == Undefined
  {
    var condition := before + "%" + after;
    AsWrittenValues(file, line, condition, eval);
    LocationThen(file, line, FailedOpen + condition + FailedClose, []);
    AsWrittenBodyUndefined(before, after);
  }

  /**
   * The condition `x % 2 == 0` is such a condition: after its `%` come the
   * flag ` `, the width `2` and the character ` `, which is no conversion
   * specifier.
   */
  lemma PercentConditionExample()
    ensures "x % 2 == 0" == "x " + "%" + " 2 == 0"
    ensures '%' !in "x "
    ensures InvalidSpecification(" 2 == 0" + FailedClose)
  {
    var spec := " 2 == 0" + FailedClose;
    assert spec[0] == ' ' && spec[1] == '2' && spec[2] == ' ';
    assert FlagsLength(spec) == 1;
    assert spec[1..][0] == '2' && spec[1..][1] == ' ';
    assert WidthLength(spec[1..]) == 1;
    assert spec[2..][0] == ' ';
    assert LengthModifier(spec[2..]) == 0;
    assert ConversionIndex(spec) == 2;
  }
}
