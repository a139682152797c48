/**
 * The report dispatcher of assertions.h: ASSERTS_VA_PRINTF and its helpers,
 * which build the single fprintf call to stderr that an assertion failure
 * makes. The selector's 0, 1 or 2 is pasted onto ASSERTS_VA_PRINTF_HELPER_
 * to pick one of three message shapes.
 */
module Dispatch {
  import opened Wrappers
  import opened Variadic

  /** The three message shapes, by the number of arguments after the condition (0, 1, 2 or more). */
  datatype Shape = NoMessage | MessageOnly | MessageWithArgs

  /** The shape an assertion with `count` arguments is meant to get: one per tail length 0, 1, and 2 or more. */
  function ShapeOf(count: nat): Shape
    requires count >= 1
  {
    if count == 1 then NoMessage else if count == 2 then MessageOnly else MessageWithArgs
  }

  /**
   * An operand of the fprintf call: the file name, the line number, a string
   * literal, or a caller expression (evaluated when the call is made).
   */
  datatype Operand = FileName(name: string) | LineNumber(line: int) | Literal(text: string) | Expr(text: Arg)

  /** fprintf(stderr, format, operands...). */
  datatype Call = Fprintf(format: string, operands: seq<Operand>)

  const PrintfHelperPrefix := "ASSERTS_VA_PRINTF_HELPER_"

  /** The pieces of the report formats: the location, and the words around a condition. */
  const LocationFormat := "[%s:%d] "
  const FailedOpen := "Assertion failed: `"
  const FailedClose := "`\n"

  /** The helper a pasted name denotes: ..._0, ..._1, ..._2, or none of this header's macros. */
  function HelperShape(name: string): Option<Shape>
  {
    if name == PrintfHelperPrefix + "0" then Some(NoMessage)
    else if name == PrintfHelperPrefix + "1" then Some(MessageOnly)
    else if name == PrintfHelperPrefix + "2" then Some(MessageWithArgs)
    else None
  }

  /**
   * A string-literal token `"..."` whose characters hold no quote and no
   * backslash (so neither an escape sequence nor adjacent literals).
   */
  predicate PlainLiteral(token: Arg)
  {
    |token| >= 2 && token[0] == '"' && token[|token| - 1] == '"'
    && '"' !in token[1..|token| - 1] && '\\' !in token[1..|token| - 1]
  }

  /**
   * The characters a message argument contributes to the format: those of a
   * plain string literal, or none for an empty argument, which leaves
   * `"[%s:%d] " "\n"` behind. None for any other token.
   */
  function LiteralBody(token: Arg): (body: Option<string>)
    ensures body.Some? <==> token == [] || PlainLiteral(token)
    ensures token == [] ==> body == Some([])
    ensures body.Some? && token != [] ==> token == ['"'] + body.value + ['"']
  {
    if token == [] then Some([])
    else if PlainLiteral(token) then
      assert token == [token[0]] + token[1..|token| - 1] + [token[|token| - 1]];
      Some(token[1..|token| - 1])
    else None
  }

  /** Quoting characters that hold no quote and no backslash gives a literal whose body is those characters. */
  lemma LiteralBodyOfQuoted(m: string)
    requires '"' !in m && '\\' !in m
    ensures LiteralBody(['"'] + m + ['"']) == Some(m)
  {
    var token := ['"'] + m + ['"'];
    assert token[1..|token| - 1] == m;
  }

  /** Caller arguments as fprintf operands, in order. */
  function Exprs(values: seq<Arg>): (ops: seq<Operand>)
    ensures |ops| == |values|
    ensures forall i :: 0 <= i < |values| ==> ops[i] == Expr(values[i])
  {
    if values == [] then [] else [Expr(values[0])] + Exprs(values[1..])
  }

  /**
   * The arguments that a tail forms when it is substituted for `__VA_ARGS__`
   * in a further invocation: an empty tail still forms one empty argument.
   */
  function Spread(tail: seq<Arg>): (rest: seq<Arg>)
    ensures tail == [] ==> rest == [""]
    ensures tail != [] ==> rest == tail
  {
    if tail == [] then [""] else tail
  }

  /**
   * ASSERTS_VA_PRINTF_HELPER_0 as written: the stringized condition becomes
   * part of the format string.
   */
  function NoMessageCallAsWritten(file: string, line: int, condition: Arg): Call
  {
    Fprintf(LocationFormat + (FailedOpen + condition + FailedClose), [FileName(file), LineNumber(line)])
  }

  /**
   * ASSERTS_VA_PRINTF_HELPER_0 corrected: the stringized condition is passed
   * as a `%s` operand, so that its characters are not read as directives.
   */
  function NoMessageCall(file: string, line: int, condition: Arg): Call
  {
    Fprintf(LocationFormat + (FailedOpen + "%s" + FailedClose), [FileName(file), LineNumber(line), Literal(condition)])
  }

  /**
   * Which definitions of ASSERTS_VA_PRINTF_HELPER_0 and _1 a report uses:
   * lines 40 and 41 as written, or corrected to pass the condition and the
   * message as `%s` operands.
   */
  datatype Helpers = AsWritten | Corrected

  /** The no-message call of the given definition of ASSERTS_VA_PRINTF_HELPER_0. */
  function NoMessageReport(v: Helpers, file: string, line: int, condition: Arg): Call
  {
    match v
    case AsWritten => NoMessageCallAsWritten(file, line, condition)
    case Corrected => NoMessageCall(file, line, condition)
  }

  /**
   * ASSERTS_VA_PRINTF_HELPER_1 and _2 as written: the message literal is
   * concatenated between "[%s:%d] " and "\n" to form the format, and the
   * values follow the file and line. None when the message is neither a plain
   * string literal nor empty (the concatenation of literals then does not
   * compile), and when a value is empty (the call then holds `, ,` or `, )`).
   */
  function MessageCall(file: string, line: int, message: Arg, values: seq<Arg>): Option<Call>
  {
    match LiteralBody(message)
    case Some(m) =>
      if [] in values then None
      else Some(Fprintf(LocationFormat + (m + "\n"), [FileName(file), LineNumber(line)] + Exprs(values)))
    case None => None
  }

  /**
   * ASSERTS_VA_PRINTF_HELPER_1 corrected: the message is passed as the
   * operand of a `%s`, written `"" Head` so that an empty message still
   * forms the literal "", and its characters are not read as directives.
   */
  function MessageOnlyCall(file: string, line: int, message: Arg): Option<Call>
  {
    match LiteralBody(message)
    case Some(m) => Some(Fprintf(LocationFormat + "%s\n", [FileName(file), LineNumber(line), Literal(m)]))
    case None => None
  }

  /** The message-only call of the given definition of ASSERTS_VA_PRINTF_HELPER_1. */
  function MessageOnlyReport(v: Helpers, file: string, line: int, message: Arg): Option<Call>
  {
    match v
    case AsWritten => MessageCall(file, line, message, [])
    case Corrected => MessageOnlyCall(file, line, message)
  }

  /**
   * ASSERTS_VA_PRINTF_HELPER_(File, Line, Condition, N, ...): pastes N and
   * invokes the helper so named. _0 and _1 take exactly one argument after the
   * condition, _2 at least two.
   */
  function PrintfHelperPasted(v: Helpers, file: string, line: int, condition: Arg, n: MacroArg, rest: seq<Arg>): Option<Call>
  {
    match HelperShape(PrintfHelperPrefix + n.written)
    case Some(NoMessage) => if |rest| == 1 then Some(NoMessageReport(v, file, line, condition)) else None
    case Some(MessageOnly) => if |rest| == 1 then MessageOnlyReport(v, file, line, rest[0]) else None
    case Some(MessageWithArgs) => if |rest| >= 2 then MessageCall(file, line, rest[0], rest[1..]) else None
    case None => None
  }

  /** ASSERTS_VA_PRINTF_HELPER(File, Line, Condition, N, ...): one level of indirection, so that N is expanded before it is pasted. */
  function PrintfHelper(v: Helpers, file: string, line: int, condition: Arg, n: MacroArg, rest: seq<Arg>): Option<Call>
  {
    PrintfHelperPasted(v, file, line, condition, Rescanned(n), rest)
  }

  /**
   * ASSERTS_VA_PRINTF(File, Line, ...): the failure report for the assertion's
   * arguments; the header's own report is Report(AsWritten, ...).
   */
  function Report(v: Helpers, file: string, line: int, args: seq<Arg>): Option<Call>
    requires |args| >= 1
  {
    match (Head(args), Tail(args))
    case (Some(condition), Some(tail)) => PrintfHelper(v, file, line, condition, SelectArg(args), Spread(tail))
    case _ => None
  }

  /** A pasted name denotes a helper exactly when the pasted part is 0, 1 or 2, and it denotes the matching one. */
  lemma HelperShapeOfPaste(s: string)
    ensures HelperShape(PrintfHelperPrefix + s) == (
      if s == "0" then Some(NoMessage)
      else if s == "1" then Some(MessageOnly)
      else if s == "2" then Some(MessageWithArgs)
      else None)
  {
    PasteInjective(PrintfHelperPrefix, s, "0");
    PasteInjective(PrintfHelperPrefix, s, "1");
    PasteInjective(PrintfHelperPrefix, s, "2");
  }

  /**
   * Exhaustive dispatch: for 1 to 63 arguments exactly one helper is chosen,
   * and it is the one for the argument count, whatever the argument texts.
   * From 64 arguments on a helper is chosen only when the caller's 64th
   * argument is itself 0, 1 or 2.
   */
  lemma DispatchByCount(args: seq<Arg>)
    requires |args| >= 1
    ensures |args| <= 63 ==> HelperShape(PrintfHelperPrefix + Select(args)) == Some(ShapeOf(|args|))
    ensures |args| >= 64 ==> (HelperShape(PrintfHelperPrefix + Select(args)).Some? <==> args[63] in {"0", "1", "2"})
  {
    HelperShapeOfPaste(Select(args));
  }

  /**
   * What the report is for 1 to 62 arguments: the no-message call on the
   * condition for one argument, the message-only call on the second argument
   * for two, otherwise the message call on the second argument with the
   * arguments after it as values.
   */
  lemma ReportByShape(v: Helpers, file: string, line: int, args: seq<Arg>)
    requires 1 <= |args| <= 62
    ensures |args| == 1 ==> Report(v, file, line, args) == Some(NoMessageReport(v, file, line, args[0]))
    ensures |args| == 2 ==> Report(v, file, line, args) == MessageOnlyReport(v, file, line, args[1])
    ensures |args| >= 3 ==> Report(v, file, line, args) == MessageCall(file, line, args[1], args[2..])
  {
    ReportSplit(v, file, line, args);
    var n := Select(args);
    var rest := Spread(args[1..]);
    HelperPastedShapes(v, file, line, args[0], n, rest);
    if |args| == 1 {
      assert n == "0" && |rest| == 1;
    } else {
      assert rest == args[1..];
      assert rest[0] == args[1] && rest[1..] == args[2..];
      if |args| == 2 {
        assert n == "1" && |rest| == 1;
      } else {
        assert n == "2" && |rest| >= 2;
      }
    }
  }

  /** The call each of the three printf helpers makes, when given the number of arguments it takes. */
  lemma HelperPastedShapes(v: Helpers, file: string, line: int, condition: Arg, n: Arg, rest: seq<Arg>)
    ensures n == "0" && |rest| == 1 ==>
      PrintfHelperPasted(v, file, line, condition, MacroArg(n, n), rest) == Some(NoMessageReport(v, file, line, condition))
    ensures n == "1" && |rest| == 1 ==>
      PrintfHelperPasted(v, file, line, condition, MacroArg(n, n), rest) == MessageOnlyReport(v, file, line, rest[0])
    ensures n == "2" && |rest| >= 2 ==>
      PrintfHelperPasted(v, file, line, condition, MacroArg(n, n), rest) == MessageCall(file, line, rest[0], rest[1..])
  {
    HelperShapeOfPaste(n);
  }

  /** Two arguments, corrected: the report is the message-only call on the second. */
  lemma MessageOnlyCorrected(file: string, line: int, condition: Arg, message: Arg)
    ensures Report(Corrected, file, line, [condition, message]) == MessageOnlyCall(file, line, message)
  {
    var args := [condition, message];
    assert args[1] == message;
    ReportByShape(Corrected, file, line, args);
  }

  /** For 1 to 62 arguments the report is the printf helper on the head, the selector's value and the spread tail. */
  lemma ReportSplit(v: Helpers, file: string, line: int, args: seq<Arg>)
    requires 1 <= |args| <= 62
    ensures Report(v, file, line, args)
         == PrintfHelperPasted(v, file, line, args[0], MacroArg(Select(args), Select(args)), Spread(args[1..]))
  {
    HeadTailSplit(args);
    assert Head(args) == Some(args[0]);
    assert Tail(args) == Some(args[1..]);
  }

  /**
   * The renderings, for 1 to 62 arguments. One argument gives line 40's
   * call: as written, the condition text is part of the format and only the
   * file and line are operands; corrected, it is a `%s` operand. Otherwise
   * the report exists exactly when the second argument is a plain string
   * literal or empty and no later argument is empty. Line 41 as written, and
   * line 42, put the message's characters after "[%s:%d] " in the format and
   * pass arguments 3 .. k after the file and line as operands; line 41
   * corrected passes the message as a `%s` operand.
   */
  lemma ReportFormats(v: Helpers, file: string, line: int, args: seq<Arg>)
    requires 1 <= |args| <= 62
    ensures |args| == 1 && v == AsWritten ==> (
      Report(v, file, line, args)
      == Some(Fprintf(LocationFormat + (FailedOpen + args[0] + FailedClose), [FileName(file), LineNumber(line)])))
    ensures |args| == 1 && v == Corrected ==> (
      Report(v, file, line, args)
      == Some(Fprintf(LocationFormat + (FailedOpen + "%s" + FailedClose), [FileName(file), LineNumber(line), Literal(args[0])])))
    ensures |args| >= 2 ==> (
      Report(v, file, line, args).Some?
      <==> (args[1] == [] || PlainLiteral(args[1])) && forall i :: 2 <= i < |args| ==> args[i] != [])
    ensures (|args| >= 2 && (v == AsWritten || |args| >= 3) && LiteralBody(args[1]).Some?
             && forall i :: 2 <= i < |args| ==> args[i] != []) ==> (
      Report(v, file, line, args)
      == Some(Fprintf(LocationFormat + (LiteralBody(args[1]).value + "\n"),
                      [FileName(file), LineNumber(line)] + Exprs(args[2..]))))
    ensures |args| == 2 && v == Corrected && LiteralBody(args[1]).Some? ==> (
      Report(v, file, line, args)
      == Some(Fprintf(LocationFormat + "%s\n", [FileName(file), LineNumber(line), Literal(LiteralBody(args[1]).value)])))
  {
    ReportByShape(v, file, line, args);
    if |args| >= 2 {
      assert ([] in args[2..]) <==> exists i :: 2 <= i < |args| && args[i] == [] by {
        if [] in args[2..] {
          var j :| 0 <= j < |args[2..]| && args[2..][j] == [];
          assert args[j + 2] == [];
        }
      }
    }
  }

  /** From 63 arguments on, no report is produced unless the caller's 63rd argument is the token `2`. */
  lemma ReportNeedsSplit(v: Helpers, file: string, line: int, args: seq<Arg>)
    requires |args| >= 63
    requires args[62] != "2"
    ensures Report(v, file, line, args) == None
  {
    SplitDefinedIff(args);
  }
}
