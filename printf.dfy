/**
 * The part of fprintf's output formatting (section 7.21.6.1 of ISO/IEC
 * 9899:2011) that the assertion reports rely on. The conversions `%%`, `%s`,
 * `%d` and `%i` without flags, width, precision or length are rendered; every
 * other valid conversion specification is reported as Unmodelled; an invalid
 * specification, a missing operand or an operand of the wrong kind is
 * Undefined, as the standard leaves the behaviour undefined. Operands beyond
 * those the template consumes are ignored, as the standard says.
 */
module Printf {

  /** The value of an fprintf operand: a string (char *) or an int. */
  datatype Value = Str(s: string) | Int(i: int)

  /** The text written, or why no text is determined. */
  datatype Rendering = Text(s: string) | Undefined | Unmodelled

  /** Text written before a rendering. */
  function Prepend(p: string, r: Rendering): Rendering
  {
    if r.Text? then Text(p + r.s) else r
  }

  /** A flag character of a conversion specification. */
  predicate IsFlag(c: char) { c in {'-', '+', ' ', '#', '0'} }

  /** A width or precision character: a digit, or `*` for one taken from the operands. */
  predicate IsWidth(c: char) { '0' <= c <= '9' || c == '*' }

  /** A conversion specifier character. */
  predicate IsConversion(c: char)
  {
    c in {'d', 'i', 'o', 'u', 'x', 'X', 'f', 'F', 'e', 'E', 'g', 'G', 'a', 'A', 'c', 's', 'p', 'n', '%'}
  }

  /** The number of flag characters at the start of t. */
  function FlagsLength(t: string): (r: nat)
    ensures r <= |t|
    ensures forall i :: 0 <= i < r ==> IsFlag(t[i])
    ensures r < |t| ==> !IsFlag(t[r])
  {
    if t != [] && IsFlag(t[0]) then 1 + FlagsLength(t[1..]) else 0
  }

  /** The number of width (or precision) characters at the start of t. */
  function WidthLength(t: string): (r: nat)
    ensures r <= |t|
    ensures forall i :: 0 <= i < r ==> IsWidth(t[i])
    ensures r < |t| ==> !IsWidth(t[r])
  {
    if t != [] && IsWidth(t[0]) then 1 + WidthLength(t[1..]) else 0
  }

  /** The length of a length modifier (hh, h, ll, l, j, z, t, L) at the start of t. */
  function LengthModifier(t: string): (r: nat)
    ensures r <= |t|
  {
    if |t| >= 2 && t[..2] in {"hh", "ll"} then 2
    else if |t| >= 1 && t[0] in {'h', 'l', 'j', 'z', 't', 'L'} then 1
    else 0
  }

  /**
   * For the text after a `%`: the index of the conversion specifier, after the
   * flags, the width, the precision and the length modifier.
   */
  function ConversionIndex(spec: string): (r: nat)
    ensures r <= |spec|
  {
    var f := FlagsLength(spec);
    var w := f + WidthLength(spec[f..]);
    var p := if w < |spec| && spec[w] == '.' then w + 1 + WidthLength(spec[w + 1..]) else w;
    p + LengthModifier(spec[p..])
  }

  /** The character of a decimal digit. */
  function DigitChar(d: nat): char
    requires d < 10
  {
    ('0' as int + d) as char
  }

  /** The decimal digits of n, most significant first, without leading zeros. */
  function Digits(n: nat): (r: string)
    ensures |r| >= 1
    ensures forall i :: 0 <= i < |r| ==> '0' <= r[i] <= '9'
  {
    if n < 10 then [DigitChar(n)] else Digits(n / 10) + [DigitChar(n % 10)]
  }

  /** `%d` of n: its decimal digits, after a minus sign when n is negative. */
  function Decimal(n: int): string
  {
    if n < 0 then "-" + Digits(-n) else Digits(n)
  }

  /** The number a string of decimal digits denotes. */
  function DigitsValue(s: string): int
  {
    if s == [] then 0 else 10 * DigitsValue(s[..|s| - 1]) + (s[|s| - 1] as int - '0' as int)
  }

  /** Reads back a decimal numeral with an optional leading minus sign. */
  function DecimalValue(s: string): int
  {
    if s != [] && s[0] == '-' then -DigitsValue(s[1..]) else DigitsValue(s)
  }

  /** The text fprintf writes for template t and operands vs. */
  function Format(t: string, vs: seq<Value>): Rendering
    decreases |t|
  {
    if t == [] then Text([])
    else if t[0] != '%' then Prepend([t[0]], Format(t[1..], vs))
    else
      var spec := t[1..];
      var j := ConversionIndex(spec);
      if j == |spec| then Undefined
      else if j > 0 || spec[0] !in {'%', 's', 'd', 'i'} then
        if IsConversion(spec[j]) then Unmodelled else Undefined
      else if spec[0] == '%' then Prepend("%", Format(spec[1..], vs))
      else if vs == [] then Undefined
      else if spec[0] == 's' then
        if vs[0].Str? then Prepend(vs[0].s, Format(spec[1..], vs[1..])) else Undefined
      else
        if vs[0].Int? then Prepend(Decimal(vs[0].i), Format(spec[1..], vs[1..])) else Undefined
  }

  /** Writing q then p before a rendering is writing p + q before it. */
  lemma PrependAssoc(p: string, q: string, r: Rendering)
    ensures Prepend(p, Prepend(q, r)) == Prepend(p + q, r)
  {
    if r.Text? {
      assert p + (q + r.s) == (p + q) + r.s;
    }
  }

  /** Reading back `%d`'s digits gives the number. */
  lemma {:induction false} DigitsRoundTrip(n: nat)
    ensures DigitsValue(Digits(n)) == n
  {
    if n >= 10 {
      DigitsRoundTrip(n / 10);
      var s := Digits(n);
      assert s[..|s| - 1] == Digits(n / 10);
    }
  }

  /** `%d` loses nothing: its text reads back as the number printed. */
  lemma DecimalRoundTrip(n: int)
    ensures DecimalValue(Decimal(n)) == n
  {
    if n < 0 {
      DigitsRoundTrip(-n);
      assert Decimal(n)[1..] == Digits(-n);
    } else {
      DigitsRoundTrip(n);
    }
  }

  /** A template part without `%` is copied to the output unchanged, whatever the operands. */
  lemma {:induction false} FormatLiteralPrefix(a: string, b: string, vs: seq<Value>)
    requires '%' !in a
    ensures Format(a + b, vs) == Prepend(a, Format(b, vs))
  {
    if a == [] {
      assert a + b == b;
    } else {
      assert (a + b)[0] == a[0];
      assert (a + b)[1..] == a[1..] + b;
      assert a[0] in a;
      assert forall c :: c in a[1..] ==> c in a;
      FormatLiteralPrefix(a[1..], b, vs);
      PrependAssoc([a[0]], a[1..], Format(b, vs));
      assert [a[0]] + a[1..] == a;
    }
  }

  /** A directive-free template is written verbatim and consumes no operand. */
  lemma FormatLiteral(t: string, vs: seq<Value>)
    requires '%' !in t
    ensures Format(t, vs) == Text(t)
  {
    FormatLiteralPrefix(t, [], vs);
    assert t + [] == t;
  }

  /** A specification whose first character is neither a flag, a width, a `.` nor a length modifier has its specifier first. */
  lemma ConversionAtStart(spec: string)
    requires spec != [] && spec[0] in {'%', 's', 'd', 'i'}
    ensures ConversionIndex(spec) == 0
  {
    assert FlagsLength(spec) == 0;
    assert spec[0..] == spec;
    assert WidthLength(spec) == 0;
    assert LengthModifier(spec) == 0;
  }

  /** One step of Format over a `%%`, `%s`, `%d` or `%i` directive at the start of the template. */
  lemma FormatDirective(t: string, vs: seq<Value>)
    requires |t| >= 2 && t[0] == '%' && t[1] in {'%', 's', 'd', 'i'}
    ensures t[1] == '%' ==> Format(t, vs) == Prepend("%", Format(t[2..], vs))
    ensures t[1] != '%' && vs == [] ==> Format(t, vs) == Undefined
    ensures t[1] == 's' && vs != [] ==>
      Format(t, vs) == if vs[0].Str? then Prepend(vs[0].s, Format(t[2..], vs[1..])) else Undefined
    ensures t[1] in {'d', 'i'} && vs != [] ==>
      Format(t, vs) == if vs[0].Int? then Prepend(Decimal(vs[0].i), Format(t[2..], vs[1..])) else Undefined
  {
    var spec := t[1..];
    assert spec[0] == t[1] && spec[1..] == t[2..];
    ConversionAtStart(spec);
  }

  /** `%s` writes the next operand's string. */
  lemma FormatString(s: string, b: string, vs: seq<Value>)
    ensures Format("%s" + b, [Str(s)] + vs) == Prepend(s, Format(b, vs))
  {
    var t := "%s" + b;
    var ops := [Str(s)] + vs;
    assert t[0] == '%' && t[1] == 's' && t[2..] == b;
    assert ops[0] == Str(s) && ops[1..] == vs;
    FormatDirective(t, ops);
  }

  /** A `%s` between two directive-free parts writes the operand's string between them. */
  lemma FormatStringBetween(a: string, s: string, b: string, vs: seq<Value>)
    requires '%' !in a && '%' !in b
    ensures Format(a + ("%s" + b), [Str(s)] + vs) == Text(a + s + b)
  {
    FormatLiteralPrefix(a, "%s" + b, [Str(s)] + vs);
    FormatString(s, b, vs);
    FormatLiteral(b, vs);
    assert a + (s + b) == a + s + b;
  }

  /** `%d` writes the next operand's decimal numeral. */
  lemma FormatInt(n: int, b: string, vs: seq<Value>)
    ensures Format("%d" + b, [Int(n)] + vs) == Prepend(Decimal(n), Format(b, vs))
  {
    var t := "%d" + b;
    var ops := [Int(n)] + vs;
    assert t[0] == '%' && t[1] == 'd' && t[2..] == b;
    assert ops[0] == Int(n) && ops[1..] == vs;
    FormatDirective(t, ops);
  }

  /**
   * The text after a `%` starts with an invalid conversion specification: it
   * ends before a conversion specifier, or that character is not one.
   */
  predicate InvalidSpecification(spec: string)
  {
    var j := ConversionIndex(spec);
    j == |spec| || !IsConversion(spec[j])
  }

  /** An invalid conversion specification makes the behaviour undefined (paragraph 9 of section 7.21.6.1). */
  lemma FormatInvalid(spec: string, vs: seq<Value>)
    requires InvalidSpecification(spec)
    ensures Format("%" + spec, vs) == Undefined
  {
    assert ("%" + spec)[0] == '%' && ("%" + spec)[1..] == spec;
  }

  /** `%s` and `%d` with no operand left: the behaviour is undefined. */
  lemma MissingOperand(b: string)
    ensures Format("%s" + b, []) == Undefined
    ensures Format("%d" + b, []) == Undefined
  {
    var ts := "%s" + b;
    assert ts[0] == '%' && ts[1] == 's';
    FormatDirective(ts, []);
    var td := "%d" + b;
    assert td[0] == '%' && td[1] == 'd';
    FormatDirective(td, []);
  }

  /**
   * The location prefix `[%s:%d] ` of every report consumes the file name and
   * the line number and writes `[file:line] `.
   */
  lemma LocationPrefix(file: string, line: int, rest: string, vs: seq<Value>)
    ensures Format("[%s:%d] " + rest, [Str(file), Int(line)] + vs)
         == Prepend("[" + file + ":" + Decimal(line) + "] ", Format(rest, vs))
  {
    var d := Decimal(line);
    var r := Format(rest, vs);
    var t4 := "] " + rest;
    var t3 := "%d" + t4;
    var t2 := ":" + t3;
    var t1 := "%s" + t2;
    var t0 := "[" + t1;
    assert "[%s:%d] " + rest == t0;
    var ops1 := [Int(line)] + vs;
    var ops0 := [Str(file)] + ops1;
    assert [Str(file), Int(line)] + vs == ops0;
    calc {
      Format(t0, ops0);
      { FormatLiteralPrefix("[", t1, ops0); }
      Prepend("[", Format(t1, ops0));
      { FormatString(file, t2, ops1); }
      Prepend("[", Prepend(file, Format(t2, ops1)));
      { FormatLiteralPrefix(":", t3, ops1); }
      Prepend("[", Prepend(file, Prepend(":", Format(t3, ops1))));
      { FormatInt(line, t4, vs); }
      Prepend("[", Prepend(file, Prepend(":", Prepend(d, Format(t4, vs)))));
      { FormatLiteralPrefix("] ", rest, vs); }
      Prepend("[", Prepend(file, Prepend(":", Prepend(d, Prepend("] ", r)))));
      { PrependAssoc(d, "] ", r); PrependAssoc(":", d + "] ", r);
        PrependAssoc(file, ":" + (d + "] "), r); PrependAssoc("[", file + (":" + (d + "] ")), r); }
      Prepend("[" + (file + (":" + (d + "] "))), r);
      { assert "[" + (file + (":" + (d + "] "))) == "[" + file + ":" + d + "] "; }
      Prepend("[" + file + ":" + d + "] ", r);
    }
  }
}
