/**
 * The variadic utility macros of assertions.h: the arity selector
 * ASSERTS_VA_TAIL_SELECT / ASSERTS_VA_TAIL_SELECT64 and the splitter
 * ASSERTS_VA_HEAD / ASSERTS_VA_TAIL.
 *
 * A macro argument is modelled by its token text after macro expansion.
 * The C preprocessor always passes at least one argument to a variadic
 * macro (an empty invocation passes one empty argument), so every argument
 * list here has length at least one.
 */
module Variadic {
  import opened Wrappers

  /** The text of one macro argument. */
  type Arg = string

  /** The 64 tokens ASSERTS_VA_TAIL_SELECT appends to its arguments: sixty-one `2`s, then `1`, `0`, `_`. */
  const Pad: seq<Arg> := Repeat("2", 61) + ["1", "0", "_"]

  /** n copies of one token. */
  function Repeat(token: Arg, n: nat): (r: seq<Arg>)
    ensures |r| == n
    ensures forall i :: 0 <= i < n ==> r[i] == token
  {
    if n == 0 then [] else [token] + Repeat(token, n - 1)
  }

  /**
   * ASSERTS_VA_TAIL_SELECT64: sixty-four named parameters (_01 .. _63, X) and `...`.
   * An invocation needs more arguments than named parameters
   * (section 6.10.3 paragraph 4 of ISO/IEC 9899:2011); the result is X.
   */
  function Select64(list: seq<Arg>): Arg
    requires |list| > 64
  {
    list[63]
  }

  /**
   * ASSERTS_VA_TAIL_SELECT: the 64th element of the arguments followed by Pad.
   * For up to 63 arguments it depends only on their number; from 64 on it is a
   * caller argument.
   */
  function Select(args: seq<Arg>): (n: Arg)
    requires |args| >= 1
    ensures |args| == 1 ==> n == "0"
    ensures |args| == 2 ==> n == "1"
    ensures 3 <= |args| <= 63 ==> n == "2"
    ensures |args| >= 64 ==> n == args[63]
  {
    Select64(args + Pad)
  }

  /**
   * A macro argument as the preprocessor holds it: the tokens as written in the
   * invocation, and the same tokens fully macro-expanded. A parameter next to
   * `##` is replaced by the former, any other parameter by the latter
   * (sections 6.10.3.1 and 6.10.3.3 of ISO/IEC 9899:2011).
   */
  datatype MacroArg = MacroArg(written: string, expanded: string)

  /**
   * Handing a parameter on to another macro in a replacement list: the inner
   * invocation is written with the expanded text.
   */
  function Rescanned(n: MacroArg): MacroArg
  {
    MacroArg(n.expanded, n.expanded)
  }

  /** Arguments separated by commas, as they are written in an invocation. */
  function Join(args: seq<Arg>): string
  {
    if |args| == 0 then ""
    else if |args| == 1 then args[0]
    else args[0] + ", " + Join(args[1..])
  }

  /** The text of the invocation `name(args)`. */
  function CallText(name: string, args: seq<Arg>): string
  {
    name + "(" + Join(args) + ")"
  }

  /** The selector invocation `ASSERTS_VA_TAIL_SELECT(args)` passed as a macro argument. */
  function SelectArg(args: seq<Arg>): MacroArg
    requires |args| >= 1
  {
    MacroArg(CallText("ASSERTS_VA_TAIL_SELECT", args), Select(args))
  }

  const HeadHelperPrefix := "ASSERTS_VA_HEAD_HELPER_"
  const TailHelperPrefix := "ASSERTS_VA_TAIL_HELPER_"

  /**
   * ASSERTS_VA_HEAD_HELPER_(N, ...): pastes N onto the helper name and invokes
   * the helper so named. HELPER_1 takes exactly one argument, HELPER_2 at least
   * two; any other pasted name is no macro of this header.
   */
  function HeadHelperPasted(n: MacroArg, args: seq<Arg>): Option<Arg>
  {
    var name := HeadHelperPrefix + n.written;
    if name == HeadHelperPrefix + "1" then
      if |args| == 1 then Some(args[0]) else None
    else if name == HeadHelperPrefix + "2" then
      if |args| >= 2 then Some(args[0]) else None
    else None
  }

  /** ASSERTS_VA_TAIL_HELPER_(N, ...): as HeadHelperPasted, projecting the arguments after the first. */
  function TailHelperPasted(n: MacroArg, args: seq<Arg>): Option<seq<Arg>>
  {
    var name := TailHelperPrefix + n.written;
    if name == TailHelperPrefix + "1" then
      if |args| == 1 then Some([]) else None
    else if name == TailHelperPrefix + "2" then
      if |args| >= 2 then Some(args[1..]) else None
    else None
  }

  /** ASSERTS_VA_HEAD_HELPER(N, ...): one level of indirection, so that N is expanded before it is pasted. */
  function HeadHelper(n: MacroArg, args: seq<Arg>): Option<Arg>
  {
    HeadHelperPasted(Rescanned(n), args)
  }

  /** ASSERTS_VA_TAIL_HELPER(N, ...): one level of indirection, so that N is expanded before it is pasted. */
  function TailHelper(n: MacroArg, args: seq<Arg>): Option<seq<Arg>>
  {
    TailHelperPasted(Rescanned(n), args)
  }

  /** ASSERTS_VA_HEAD(...): the first argument; None where the expansion is rejected. */
  function Head(args: seq<Arg>): Option<Arg>
    requires |args| >= 1
  {
    HeadHelper(SelectArg(["_"] + args), args)
  }

  /** ASSERTS_VA_TAIL(...): the arguments after the first; None where the expansion is rejected. */
  function Tail(args: seq<Arg>): Option<seq<Arg>>
    requires |args| >= 1
  {
    TailHelper(SelectArg(["_"] + args), args)
  }

  /** Two pasted names with a common prefix are equal exactly when the pasted parts are. */
  lemma PasteInjective(prefix: string, s: string, t: string)
    ensures prefix + s == prefix + t <==> s == t
  {
    if prefix + s == prefix + t {
      assert s == (prefix + s)[|prefix|..];
      assert t == (prefix + t)[|prefix|..];
    }
  }

  /**
   * The splitter's count: the selector applied to `_` followed by k arguments
   * gives 1 for k = 1 and 2 for 2 <= k <= 62; from k = 63 on it gives the
   * caller's 63rd argument.
   */
  lemma SplitCount(args: seq<Arg>)
    requires |args| >= 1
    ensures |args| == 1 ==> Select(["_"] + args) == "1"
    ensures 2 <= |args| <= 62 ==> Select(["_"] + args) == "2"
    ensures |args| >= 63 ==> Select(["_"] + args) == args[62]
  {
    if |args| >= 63 {
      assert (["_"] + args)[63] == args[62];
    }
  }

  /**
   * Whenever the head helper accepts the arguments it yields the first one, and
   * the tail helper then yields the arguments after it.
   */
  lemma {:induction false} HelpersProject(n: MacroArg, args: seq<Arg>)
    ensures HeadHelperPasted(n, args).Some? ==> HeadHelperPasted(n, args) == Some(args[0])
    ensures TailHelperPasted(n, args).Some? ==> TailHelperPasted(n, args) == Some(args[1..])
    ensures HeadHelperPasted(n, args).Some? <==> TailHelperPasted(n, args).Some?
    ensures HeadHelperPasted(n, args).Some? <==> ((n.written == "1" && |args| == 1) || (n.written == "2" && |args| >= 2))
  {
    PasteInjective(HeadHelperPrefix, n.written, "1");
    PasteInjective(HeadHelperPrefix, n.written, "2");
    PasteInjective(TailHelperPrefix, n.written, "1");
    PasteInjective(TailHelperPrefix, n.written, "2");
    if |args| == 1 {
      assert args[1..] == [];
    }
  }

  /**
   * Head/Tail reconstruction: for 1 to 62 arguments the head is the first
   * argument and the tail the rest, in order; the tail is empty for one argument.
   */
  lemma HeadTailSplit(args: seq<Arg>)
    requires 1 <= |args| <= 62
    ensures Head(args) == Some(args[0])
    ensures Tail(args).Some?
    ensures [Head(args).value] + Tail(args).value == args
    ensures |Tail(args).value| == |args| - 1
    ensures |args| == 1 ==> Tail(args) == Some([])
  {
    SplitCount(args);
    HelpersProject(Rescanned(SelectArg(["_"] + args)), args);
  }

  /**
   * The splitter's expansion is accepted exactly for up to 62 arguments, or
   * beyond that when the caller's 63rd argument happens to be the token `2`.
   */
  lemma SplitDefinedIff(args: seq<Arg>)
    requires |args| >= 1
    ensures Head(args).Some? <==> (|args| <= 62 || args[62] == "2")
    ensures Tail(args).Some? <==> Head(args).Some?
  {
    SplitCount(args);
    HelpersProject(Rescanned(SelectArg(["_"] + args)), args);
  }

  /**
   * Why the HELPER -> HELPER_ indirection exists: pasting the selector
   * invocation as written, rather than its expansion, names no helper, so
   * neither projection is produced.
   */
  lemma PasteNeedsExpansion(args: seq<Arg>)
    requires |args| >= 1
    ensures HeadHelperPasted(SelectArg(["_"] + args), args) == None
    ensures TailHelperPasted(SelectArg(["_"] + args), args) == None
  {
    var w := SelectArg(["_"] + args).written;
    assert |w| > 1;
    PasteInjective(HeadHelperPrefix, w, "1");
    PasteInjective(HeadHelperPrefix, w, "2");
    PasteInjective(TailHelperPrefix, w, "1");
    PasteInjective(TailHelperPrefix, w, "2");
  }
}
