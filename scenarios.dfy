/**
 * Five usage scenarios of the library, as consequences of
 * the general lemmas: a passing EQ, a failing EQ without message, a failing
 * assertion with a message, one with a message and a value, and a message
 * holding `%` through the corrected message-only helper. The
 * condition texts are the ones Assert sees after macro expansion.
 */
module Scenarios {
  import opened Wrappers
  import opened Variadic
  import opened Printf
  import opened Dispatch
  import opened Assertion
  import Compare

  /** Assert(EQ(1, 1)) passes and writes nothing. */
  lemma PassingEquality(file: string, line: int, eval: Evaluator)
    requires eval("((1) == (1))") == Int(Compare.EQ(1, 1))
    ensures AssertImpl(AsWritten, file, line, ["((1) == (1))"], eval) == Some(Run(["((1) == (1))"], Passed))
  {
    var args := ["((1) == (1))"];
    ReportFormats(AsWritten, file, line, args);
    AssertImplRuns(AsWritten, file, line, args, eval);
  }

  /** Assert(EQ(0, 1)) fails with `[file:line] Assertion failed: `((0) == (1))``. */
  lemma FailingEquality(file: string, line: int, condition: Arg, eval: Evaluator)
    requires condition == "((0) == (1))"
    requires eval(condition) == Int(Compare.EQ(0, 1))
    ensures AssertImpl(AsWritten, file, line, [condition], eval)
         == Some(Run([condition], Failed(Text(Location(file, line) + FailedOpen + "((0) == (1))" + FailedClose))))
  {
    assert condition[0] == '(' && '%' !in condition;
    FailureNoMessage(file, line, condition, eval);
    ConcatAssoc(Location(file, line), FailedOpen, condition, FailedClose);
  }

  /** Regrouping the pieces of a diagnostic. */
  lemma ConcatAssoc(a: string, b: string, c: string, d: string)
    ensures a + (b + c + d) == a + b + c + d
  {
  }

  /** Assert(0, "bad value") fails with `[file:line] bad value`. */
  lemma FailingWithMessage(file: string, line: int, condition: Arg, message: Arg, eval: Evaluator)
    requires condition == "0" && message == "\"bad value\""
    requires eval(condition) == Int(0)
    ensures AssertImpl(AsWritten, file, line, [condition, message], eval)
         == Some(Run([condition], Failed(Text(Location(file, line) + "bad value\n"))))
  {
    PlainMessageBody(message);
    FailureMessageVerbatim(AsWritten, file, line, condition, message, eval);
    PlainText(Location(file, line));
  }

  /** The characters of the literal `"bad value"`, which hold no `%`. */
  lemma PlainMessageBody(message: Arg)
    requires message == "\"bad value\""
    ensures LiteralBody(message) == Some("bad value") && '%' !in "bad value"
  {
    assert message[1..|message| - 1] == "bad value";
  }

  /** The message followed by the newline the format adds. */
  lemma PlainText(l: string)
    ensures l + "bad value" + "\n" == l + "bad value\n"
  {
  }

  /**
   * Assert(0, "at 100%") through the corrected line 41 fails with
   * `[file:line] at 100%`: the `%` is written, not read as a directive.
   */
  lemma CorrectedPercentMessage(file: string, line: int, condition: Arg, message: Arg, eval: Evaluator)
    requires condition == "0" && message == "\"at 100%\""
    requires eval(condition) == Int(0)
    ensures AssertImpl(Corrected, file, line, [condition, message], eval)
         == Some(Run([condition], Failed(Text(Location(file, line) + "at 100%\n"))))
  {
    PercentMessageBody(message);
    FailureMessageCorrected(file, line, condition, message, eval);
    PercentText(Location(file, line));
  }

  /** The characters of the literal `"at 100%"`. */
  lemma PercentMessageBody(message: Arg)
    requires message == "\"at 100%\""
    ensures LiteralBody(message) == Some("at 100%")
  {
    assert message == ['"'] + "at 100%" + ['"'];
    LiteralBodyOfQuoted("at 100%");
  }

  /** The message followed by the newline the corrected format adds. */
  lemma PercentText(l: string)
    ensures l + "at 100%" + "\n" == l + "at 100%\n"
  {
  }

  /** Assert(0, "bad value: %d", 7) fails with `[file:line] bad value: 7`. */
  lemma FailingWithValue(file: string, line: int, condition: Arg, message: Arg, value: Arg, eval: Evaluator)
    requires condition == "0" && message == "\"bad value: %d\"" && value == "7"
    requires eval(condition) == Int(0) && eval(value) == Int(7)
    ensures AssertImpl(AsWritten, file, line, [condition, message, value], eval)
         == Some(Run([condition, value], Failed(Text(Location(file, line) + "bad value: 7\n"))))
  {
    ValueMessageBody(message);
    FailureWithIntValue(AsWritten, file, line, condition, message, value, "bad value: ", "", 7, eval);
    SevenText(Location(file, line));
  }

  /** The characters of the literal `"bad value: %d"`: one `%d` after `bad value: `. */
  lemma ValueMessageBody(message: Arg)
    requires message == "\"bad value: %d\""
    ensures LiteralBody(message) == Some("bad value: " + "%d" + "")
  {
    assert message[1..|message| - 1] == "bad value: " + "%d" + "";
  }

  /** `%d` of 7 is `7`, so the diagnostic reads `bad value: 7`. */
  lemma SevenText(l: string)
    ensures l + "bad value: " + Decimal(7) + "" + "\n" == l + "bad value: 7\n"
  {
    assert Decimal(7) == "7";
  }
}
