/**
 * The node-material TransformBlock: a shader-graph block that multiplies its
 * "vector" input by its "transform" matrix input and emits the GLSL line that
 * does so into the material's compilation string.
 *
 * The generated text goes through StringTools::printf, modelled here as C's
 * printf restricted to the directives the block uses (%s, %f and %%). The
 * helpers of the base block and of the connection point (_declareOutput,
 * _writeFloat, associatedVariableName) are not part of this model; they enter
 * as function values in an Emitters record.
 */
module NodeBlocks {
  import opened Wrappers

  // ---------------------------------------------------------------------------
  // printf, for the directives %s, %f and %%
  // ---------------------------------------------------------------------------

  /** A printf argument: a C string (from std::string::c_str) or a floating-point value (a float is passed to printf as a double). */
  datatype PrintfArg = Str(s: string) | Double(x: real)

  /** What %s prints for s.c_str(): the characters before the first NUL. */
  function CStr(s: string): (r: string)
    ensures r <= s
    ensures '\0' !in r
    ensures '\0' !in s ==> r == s
  {
    if s == [] || s[0] == '\0' then [] else [s[0]] + CStr(s[1..])
  }

  /** The character of the decimal digit d. */
  function Digit(d: nat): (c: char)
    requires d < 10
    ensures '0' <= c <= '9'
    ensures c as int - '0' as int == d
  {
    ('0' as int + d) as char
  }

  /** The decimal digits of n, without leading zeros. */
  function Decimal(n: nat): (s: string)
    ensures |s| >= 1
    ensures forall i :: 0 <= i < |s| ==> '0' <= s[i] <= '9'
    decreases n
  {
    if n < 10 then [Digit(n)] else Decimal(n / 10) + [Digit(n % 10)]
  }

  /** s preceded by as many '0' as make it at least width characters long. */
  function PadZeros(s: string, width: nat): (r: string)
    ensures |r| == if |s| >= width then |s| else width
    ensures r[|r| - |s|..] == s
    ensures forall i :: 0 <= i < |r| - |s| ==> r[i] == '0'
  {
    if |s| >= width then s else seq(width - |s|, _ => '0') + s
  }

  predicate AllDigits(s: string)
  {
    forall i :: 0 <= i < |s| ==> '0' <= s[i] <= '9'
  }

  /** The number a string of decimal digits denotes, most significant digit first. */
  function Value(ds: string): (v: nat)
    requires AllDigits(ds)
    decreases |ds|
  {
    if ds == [] then 0
    else
      assert AllDigits(ds[..|ds| - 1]) by {
        assert forall i :: 0 <= i < |ds| - 1 ==> ds[..|ds| - 1][i] == ds[i];
      }
      Value(ds[..|ds| - 1]) * 10 + (ds[|ds| - 1] as int - '0' as int)
  }

  /** 10 to the power k. */
  function Pow10(k: nat): (p: nat)
  {
    if k == 0 then 1 else 10 * Pow10(k - 1)
  }

  /** Decimal is a faithful rendering: its digits denote n. */
  lemma {:induction false} DecimalValue(n: nat)
    ensures AllDigits(Decimal(n)) && Value(Decimal(n)) == n
    decreases n
  {
    var d := Decimal(n);
    if n >= 10 {
      DecimalValue(n / 10);
      assert d[..|d| - 1] == Decimal(n / 10);
    }
  }

  /** Decimal writes no leading zero: it starts with '0' only for 0 itself. */
  lemma {:induction false} DecimalLeadingDigit(n: nat)
    ensures Decimal(n)[0] == '0' <==> n == 0
    decreases n
  {
    if n >= 10 {
      DecimalLeadingDigit(n / 10);
      assert Decimal(n)[0] == Decimal(n / 10)[0];
    }
  }

  /** A number below 10^k takes at most k digits. */
  lemma {:induction false} DecimalLength(n: nat, k: nat)
    requires 1 <= k && n < Pow10(k)
    ensures |Decimal(n)| <= k
    decreases n
  {
    if n >= 10 {
      assert k != 1;
      DecimalLength(n / 10, k - 1);
    }
  }

  /** A string of zeros denotes 0. */
  lemma {:induction false} ZerosValue(z: string)
    requires forall i :: 0 <= i < |z| ==> z[i] == '0'
    ensures AllDigits(z) && Value(z) == 0
    decreases |z|
  {
    if z != [] {
      ZerosValue(z[..|z| - 1]);
    }
  }

  /** Leading zeros do not change the value of a digit string. */
  lemma {:induction false} LeadingZerosValue(z: string, ds: string)
    requires forall i :: 0 <= i < |z| ==> z[i] == '0'
    requires AllDigits(ds)
    ensures AllDigits(z + ds) && Value(z + ds) == Value(ds)
    decreases |ds|
  {
    if ds == [] {
      assert z + ds == z;
      ZerosValue(z);
    } else {
      var t := z + ds;
      assert t[..|t| - 1] == z + ds[..|ds| - 1];
      assert AllDigits(ds[..|ds| - 1]) by {
        assert forall i :: 0 <= i < |ds| - 1 ==> ds[..|ds| - 1][i] == ds[i];
      }
      LeadingZerosValue(z, ds[..|ds| - 1]);
    }
  }

  /** The six fraction digits %f prints for a remainder below 10^6 denote that remainder. */
  lemma SixDigits(m: nat)
    requires m < 1000000
    ensures |PadZeros(Decimal(m), 6)| == 6
    ensures AllDigits(PadZeros(Decimal(m), 6)) && Value(PadZeros(Decimal(m), 6)) == m
  {
    var d := Decimal(m);
    assert Pow10(6) == 1000000;
    DecimalLength(m, 6);
    DecimalValue(m);
    var p := PadZeros(d, 6);
    var z := p[..6 - |d|];
    assert p == z + d;
    LeadingZerosValue(z, d);
  }

  /** Rounding of a non-negative value to the nearest integer, ties to even (the rounding glibc's printf applies). */
  function RoundHalfEven(x: real): (n: nat)
    requires x >= 0.0
    ensures x - 0.5 <= n as real <= x + 0.5
  {
    var f := x.Floor;
    var frac := x - f as real;
    if frac < 0.5 then f
    else if frac > 0.5 then f + 1
    else if f % 2 == 0 then f
    else f + 1
  }

  /**
   * The text of a fixed-point value with six decimals whose magnitude, scaled
   * by 10^6, is n: an optional minus sign, the integer part, a point and the
   * six fraction digits.
   */
  function FixedDigits(negative: bool, n: nat): (r: string)
    ensures '\r' !in r && '\0' !in r
  {
    (if negative then "-" else "") + Decimal(n / 1000000) + "." + PadZeros(Decimal(n % 1000000), 6)
  }

  /** What "%f" prints for x: x rounded to six decimals, half to even, as FixedDigits writes it. */
  function FixedSix(x: real): (r: string)
    ensures '\r' !in r && '\0' !in r
  {
    FixedDigits(x < 0.0, RoundHalfEven((if x < 0.0 then -x else x) * 1000000.0))
  }

  /** Where the parts of sign + digits + "." + six digits sit in the text. */
  lemma FixedLayout(sign: string, d: string, p: string)
    requires |sign| <= 1 && |d| >= 1 && |p| == 6
    ensures var r := sign + d + "." + p;
            && |r| == |sign| + |d| + 7
            && r[|sign|..|r| - 7] == d && r[|r| - 7] == '.' && r[|r| - 6..] == p
            && r[|sign|] == d[0]
            && r[0] == if |sign| == 1 then sign[0] else d[0]
  {
  }

  /**
   * r is a fixed-point rendering with six decimals of the value whose
   * magnitude, scaled by 10^6, is n: a minus sign exactly when negative, the
   * integer part without leading zeros (a single '0' when it is zero), a
   * point, and exactly six digits.
   */
  ghost predicate DenotesFixed(r: string, negative: bool, n: nat)
  {
    var s := if negative then 1 else 0;
    && |r| >= s + 8
    && (r[0] == '-' <==> negative)
    && r[|r| - 7] == '.'
    && AllDigits(r[s..|r| - 7]) && Value(r[s..|r| - 7]) == n / 1000000
    && (r[s] == '0' <==> n / 1000000 == 0)
    && (n / 1000000 == 0 ==> |r| == s + 8)
    && AllDigits(r[|r| - 6..]) && Value(r[|r| - 6..]) == n % 1000000
  }

  lemma FixedDigitsDenote(negative: bool, n: nat)
    ensures DenotesFixed(FixedDigits(negative, n), negative, n)
  {
    var sign: string := if negative then "-" else "";
    var d := Decimal(n / 1000000);
    var p := PadZeros(Decimal(n % 1000000), 6);
    SixDigits(n % 1000000);
    DecimalValue(n / 1000000);
    DecimalLeadingDigit(n / 1000000);
    FixedLayout(sign, d, p);
  }

  /** What %f prints for x denotes |x| * 10^6 rounded half to even, with the sign of x. */
  lemma FixedSixDenotes(x: real)
    ensures DenotesFixed(FixedSix(x), x < 0.0, RoundHalfEven((if x < 0.0 then -x else x) * 1000000.0))
  {
    var n := RoundHalfEven((if x < 0.0 then -x else x) * 1000000.0);
    assert FixedSix(x) == FixedDigits(x < 0.0, n);
    FixedDigitsDenote(x < 0.0, n);
  }

  function Prepend(prefix: string, r: Option<string>): (p: Option<string>)
  {
    match r
    case None => None
    case Some(t) => Some(prefix + t)
  }

  /**
   * printf(fmt, args...): None when a directive is malformed, unsupported, or
   * lacks an argument of the right kind (undefined behaviour in C); arguments
   * left over after the last directive are ignored, as in C.
   */
  function Printf(fmt: string, args: seq<PrintfArg>): (r: Option<string>)
    decreases |fmt|
  {
    if fmt == [] then Some([])
    else if fmt[0] != '%' then Prepend([fmt[0]], Printf(fmt[1..], args))
    else if |fmt| < 2 then None
    else if fmt[1] == '%' then Prepend("%", Printf(fmt[2..], args))
    else if args == [] then None
    else if fmt[1] == 's' && args[0].Str? then Prepend(CStr(args[0].s), Printf(fmt[2..], args[1..]))
    else if fmt[1] == 'f' && args[0].Double? then Prepend(FixedSix(args[0].x), Printf(fmt[2..], args[1..]))
    else None
  }

  /** Concatenation is associative. */
  lemma Assoc(x: string, y: string, z: string)
    ensures x + (y + z) == x + y + z
  {
  }

  /** Prepending twice is prepending the concatenation. */
  lemma PrependTwice(a: string, b: string, r: Option<string>)
    ensures Prepend(a, Prepend(b, r)) == Prepend(a + b, r)
  {
    match r
    case None =>
    case Some(t) => Assoc(a, b, t);
  }

  /** A character other than '%' is copied as it is. */
  lemma PrintfChar(c: char, rest: string, args: seq<PrintfArg>)
    requires c != '%'
    ensures Printf([c] + rest, args) == Prepend([c], Printf(rest, args))
  {
    var whole := [c] + rest;
    assert whole[0] == c && whole[1..] == rest;
  }

  /** Text without a directive is copied as it is. */
  lemma {:induction false} PrintfLiteral(lit: string, rest: string, args: seq<PrintfArg>)
    requires '%' !in lit
    ensures Printf(lit + rest, args) == Prepend(lit, Printf(rest, args))
  {
    if lit == [] {
      assert lit + rest == rest;
      match Printf(rest, args)
      case None =>
      case Some(t) => assert lit + t == t;
    } else {
      assert lit == [lit[0]] + lit[1..];
      assert lit + rest == [lit[0]] + (lit[1..] + rest);
      PrintfChar(lit[0], lit[1..] + rest, args);
      PrintfLiteral(lit[1..], rest, args);
      PrependTwice([lit[0]], lit[1..], Printf(rest, args));
    }
  }

  /** A format that starts with %s prints the C string of the first argument first. */
  lemma PrintfLeadingStr(a: string, rest: string, args: seq<PrintfArg>)
    ensures Printf("%s" + rest, [Str(a)] + args) == Prepend(CStr(a), Printf(rest, args))
  {
    assert ("%s" + rest)[0] == '%' && ("%s" + rest)[1] == 's';
    assert ("%s" + rest)[2..] == rest;
    assert ([Str(a)] + args)[1..] == args;
  }

  /** A format that starts with %f prints the six-decimal rendering of the first argument first. */
  lemma PrintfLeadingDouble(x: real, rest: string, args: seq<PrintfArg>)
    ensures Printf("%f" + rest, [Double(x)] + args) == Prepend(FixedSix(x), Printf(rest, args))
  {
    assert ("%f" + rest)[0] == '%' && ("%f" + rest)[1] == 'f';
    assert ("%f" + rest)[2..] == rest;
    assert ([Double(x)] + args)[1..] == args;
  }

  /** A literal followed by %s prints the literal and then the C string of the next argument. */
  lemma PrintfStrStep(lit: string, a: string, rest: string, args: seq<PrintfArg>)
    requires '%' !in lit
    ensures Printf(lit + "%s" + rest, [Str(a)] + args) == Prepend(lit + CStr(a), Printf(rest, args))
  {
    Assoc(lit, "%s", rest);
    PrintfLiteral(lit, "%s" + rest, [Str(a)] + args);
    PrintfLeadingStr(a, rest, args);
    match Printf(rest, args)
    case None =>
    case Some(t) => Assoc(lit, CStr(a), t);
  }

  /** A literal followed by %f prints the literal and then the six-decimal rendering of the next argument. */
  lemma PrintfFloatStep(lit: string, x: real, rest: string, args: seq<PrintfArg>)
    requires '%' !in lit
    ensures Printf(lit + "%f" + rest, [Double(x)] + args) == Prepend(lit + FixedSix(x), Printf(rest, args))
  {
    Assoc(lit, "%f", rest);
    PrintfLiteral(lit, "%f" + rest, [Double(x)] + args);
    PrintfLeadingDouble(x, rest, args);
    match Printf(rest, args)
    case None =>
    case Some(t) => Assoc(lit, FixedSix(x), t);
  }

  /** The last literal of a format, after every argument has been consumed. */
  lemma PrintfTail(lit: string)
    requires '%' !in lit
    ensures Printf(lit, []) == Some(lit)
  {
    PrintfLiteral(lit, "", []);
    assert lit + "" == lit;
    assert lit + [] == lit;
  }

  // ---------------------------------------------------------------------------
  // Lines of generated code
  // ---------------------------------------------------------------------------

  predicate CrlfAt(s: string, i: nat)
  {
    i + 1 < |s| && s[i] == '\r' && s[i + 1] == '\n'
  }

  /** The index of the first "\r\n" in s, or |s| when there is none. */
  function LineEnd(s: string): (k: nat)
    ensures k <= |s|
    ensures k < |s| ==> CrlfAt(s, k)
    ensures forall j :: 0 <= j < k ==> !CrlfAt(s, j)
    decreases |s|
  {
    if s == [] then 0
    else if CrlfAt(s, 0) then 0
    else
      var k := LineEnd(s[1..]);
      assert forall j :: 1 <= j < k + 1 ==> CrlfAt(s, j) == CrlfAt(s[1..], j - 1);
      k + 1
  }

  /** The lines of s, each without its "\r\n" terminator, then the unterminated rest if it is not empty. */
  function Lines(s: string): (ls: seq<string>)
    decreases |s|
  {
    if s == [] then []
    else
      var k := LineEnd(s);
      if k == |s| then [s] else [s[..k]] + Lines(s[k + 2..])
  }

  /** A line without a carriage return, terminated by "\r\n", is the first line of what it starts. */
  lemma LinesCons(line: string, rest: string)
    requires '\r' !in line
    ensures Lines(line + "\r\n" + rest) == [line] + Lines(rest)
  {
    var s := line + "\r\n" + rest;
    var k := LineEnd(s);
    assert CrlfAt(s, |line|);
    assert k == |line|;
    assert s[..k] == line;
    assert s[k + 2..] == rest;
  }

  // ---------------------------------------------------------------------------
  // Connection points, build state and the block
  // ---------------------------------------------------------------------------

  /** NodeMaterialBlockConnectionPointTypes. */
  datatype PointType = Float | Int | Vector2 | Vector3 | Vector4 | Color3 | Color4 | Matrix | AutoDetect | BasedOnInput

  /** NodeMaterialBlockTargets: which shader stage a block belongs to. */
  datatype BlockTarget = Vertex | Fragment | Neutral | VertexAndFragment

  /** The point at the other end of a connection: its type and the block that owns it. */
  datatype Peer = Peer(pointType: PointType, ownerIsInput: bool, ownerName: string)

  /** A block's input or output port and, when it is connected, the point it is connected to. */
  datatype ConnectionPoint = ConnectionPoint(name: string, pointType: PointType, connectedPoint: Option<Peer>)

  /** The helpers of the base block and of the connection points, whose definitions are not modelled. */
  datatype Emitters = Emitters(
    declareOutput: ConnectionPoint -> string,  // NodeMaterialBlock::_declareOutput
    writeFloat: real -> string,                // NodeMaterialBlock::_writeFloat
    variableName: ConnectionPoint -> string)   // NodeMaterialConnectionPoint::associatedVariableName

  /** The JSON values serialize can return. */
  datatype Json = JNull | JBool(b: bool) | JNumber(n: real) | JString(s: string)
                | JArray(items: seq<Json>) | JObject(members: seq<(string, Json)>)

  /** NodeMaterialBuildState, reduced to the shader text built so far. */
  class BuildState {
    var compilationString: string

    constructor ()
      ensures compilationString == ""
    {
      compilationString := "";
    }
  }

  const Vec2Format := " = %s * vec4(%s, %s, %s);\r\n"
  const Vec3Format := " = %s * vec4(%s, %s);\r\n"
  const DirectFormat := " = %s * %s;\r\n"

  /**
   * The line _buildBlock emits, chosen from the type of the point the "vector"
   * input is connected to: decl is the output declaration, t and v the
   * variables of the transform and the vector, z and w the written
   * complements.
   */
  function TransformLine(connected: PointType, decl: string, t: string, v: string, z: string, w: string): (line: string)
    ensures connected == Vector2 ==>
      line == decl + (" = " + CStr(t) + " * vec4(" + CStr(v) + ", " + CStr(z) + ", " + CStr(w) + ");\r\n")
    ensures connected == Vector3 || connected == Color3 ==>
      line == decl + (" = " + CStr(t) + " * vec4(" + CStr(v) + ", " + CStr(w) + ");\r\n")
    ensures connected != Vector2 && connected != Vector3 && connected != Color3 ==>
      line == decl + (" = " + CStr(t) + " * " + CStr(v) + ";\r\n")
  {
    if connected == Vector2 then
      Vec2Printf(t, v, z, w);
      decl + Printf(Vec2Format, [Str(t), Str(v), Str(z), Str(w)]).value
    else if connected == Vector3 || connected == Color3 then
      Vec3Printf(t, v, w);
      decl + Printf(Vec3Format, [Str(t), Str(v), Str(w)]).value
    else
      DirectPrintf(t, v);
      decl + Printf(DirectFormat, [Str(t), Str(v)]).value
  }

  lemma {:induction false} PrintfTwoStrs(l0: string, l1: string, l2: string, a: string, b: string)
    requires '%' !in l0 && '%' !in l1 && '%' !in l2
    ensures Printf(l0 + "%s" + l1 + "%s" + l2, [Str(a), Str(b)]) == Some(l0 + CStr(a) + l1 + CStr(b) + l2)
  {
    PrintfTail(l2);
    assert [Str(b)] + [] == [Str(b)];
    PrintfStrStep(l1, b, l2, []);
    PrintfStrStep(l0, a, l1 + "%s" + l2, [Str(b)]);
    var x := l0 + "%s";
    Assoc(x, l1 + "%s", l2);
    Assoc(x, l1, "%s");
    var y := l0 + CStr(a);
    Assoc(y, l1 + CStr(b), l2);
    Assoc(y, l1, CStr(b));
    assert [Str(a), Str(b)] == [Str(a)] + [Str(b)];
  }

  lemma {:induction false} PrintfThreeStrs(l0: string, l1: string, l2: string, l3: string, a: string, b: string, c: string)
    requires '%' !in l0 && '%' !in l1 && '%' !in l2 && '%' !in l3
    ensures Printf(l0 + "%s" + l1 + "%s" + l2 + "%s" + l3, [Str(a), Str(b), Str(c)])
         == Some(l0 + CStr(a) + l1 + CStr(b) + l2 + CStr(c) + l3)
  {
    PrintfTwoStrs(l1, l2, l3, b, c);
    PrintfStrStep(l0, a, l1 + "%s" + l2 + "%s" + l3, [Str(b), Str(c)]);
    var x := l0 + "%s";
    Assoc(x, l1 + "%s" + l2 + "%s", l3);
    Assoc(x, l1 + "%s" + l2, "%s");
    Assoc(x, l1 + "%s", l2);
    Assoc(x, l1, "%s");
    var y := l0 + CStr(a);
    Assoc(y, l1 + CStr(b) + l2 + CStr(c), l3);
    Assoc(y, l1 + CStr(b) + l2, CStr(c));
    Assoc(y, l1 + CStr(b), l2);
    Assoc(y, l1, CStr(b));
    assert [Str(a), Str(b), Str(c)] == [Str(a)] + [Str(b), Str(c)];
  }

  lemma {:induction false} PrintfFourStrs(l0: string, l1: string, l2: string, l3: string, l4: string,
                                          a: string, b: string, c: string, d: string)
    requires '%' !in l0 && '%' !in l1 && '%' !in l2 && '%' !in l3 && '%' !in l4
    ensures Printf(l0 + "%s" + l1 + "%s" + l2 + "%s" + l3 + "%s" + l4, [Str(a), Str(b), Str(c), Str(d)])
         == Some(l0 + CStr(a) + l1 + CStr(b) + l2 + CStr(c) + l3 + CStr(d) + l4)
  {
    PrintfThreeStrs(l1, l2, l3, l4, b, c, d);
    PrintfStrStep(l0, a, l1 + "%s" + l2 + "%s" + l3 + "%s" + l4, [Str(b), Str(c), Str(d)]);
    var x := l0 + "%s";
    Assoc(x, l1 + "%s" + l2 + "%s" + l3 + "%s", l4);
    Assoc(x, l1 + "%s" + l2 + "%s" + l3, "%s");
    Assoc(x, l1 + "%s" + l2 + "%s", l3);
    Assoc(x, l1 + "%s" + l2, "%s");
    Assoc(x, l1 + "%s", l2);
    Assoc(x, l1, "%s");
    var y := l0 + CStr(a);
    Assoc(y, l1 + CStr(b) + l2 + CStr(c) + l3 + CStr(d), l4);
    Assoc(y, l1 + CStr(b) + l2 + CStr(c) + l3, CStr(d));
    Assoc(y, l1 + CStr(b) + l2 + CStr(c), l3);
    Assoc(y, l1 + CStr(b) + l2, CStr(c));
    Assoc(y, l1 + CStr(b), l2);
    Assoc(y, l1, CStr(b));
    assert [Str(a), Str(b), Str(c), Str(d)] == [Str(a)] + [Str(b), Str(c), Str(d)];
  }

  /** The three templates, cut at their directives. */
  lemma Vec2Pieces()
    ensures Vec2Format == " = " + "%s" + " * vec4(" + "%s" + ", " + "%s" + ", " + "%s" + ");\r\n"
  {
  }

  lemma Vec3Pieces()
    ensures Vec3Format == " = " + "%s" + " * vec4(" + "%s" + ", " + "%s" + ");\r\n"
  {
  }

  lemma DirectPieces()
    ensures DirectFormat == " = " + "%s" + " * " + "%s" + ";\r\n"
  {
  }

  lemma Vec2Printf(t: string, v: string, z: string, w: string)
    ensures Printf(Vec2Format, [Str(t), Str(v), Str(z), Str(w)])
         == Some(" = " + CStr(t) + " * vec4(" + CStr(v) + ", " + CStr(z) + ", " + CStr(w) + ");\r\n")
  {
    Vec2Pieces();
    PrintfFourStrs(" = ", " * vec4(", ", ", ", ", ");\r\n", t, v, z, w);
  }

  lemma Vec3Printf(t: string, v: string, w: string)
    ensures Printf(Vec3Format, [Str(t), Str(v), Str(w)])
         == Some(" = " + CStr(t) + " * vec4(" + CStr(v) + ", " + CStr(w) + ");\r\n")
  {
    Vec3Pieces();
    PrintfThreeStrs(" = ", " * vec4(", ", ", ");\r\n", t, v, w);
  }

  lemma DirectPrintf(t: string, v: string)
    ensures Printf(DirectFormat, [Str(t), Str(v)]) == Some(" = " + CStr(t) + " * " + CStr(v) + ";\r\n")
  {
    DirectPieces();
    PrintfTwoStrs(" = ", " * ", ";\r\n", t, v);
  }

  const DumpZFormat := "%s.complementZ = %f;\r\n"
  const DumpWFormat := "%s.complementW = %f;\r\n"

  lemma {:induction false} PrintfStrDouble(l1: string, l2: string, a: string, x: real)
    requires '%' !in l1 && '%' !in l2
    ensures Printf("%s" + l1 + "%f" + l2, [Str(a), Double(x)]) == Some(CStr(a) + l1 + FixedSix(x) + l2)
  {
    PrintfTail(l2);
    assert [Double(x)] + [] == [Double(x)];
    PrintfFloatStep(l1, x, l2, []);
    PrintfLeadingStr(a, l1 + "%f" + l2, [Double(x)]);
    Assoc("%s", l1 + "%f", l2);
    Assoc("%s", l1, "%f");
    Assoc(CStr(a), l1 + FixedSix(x), l2);
    Assoc(CStr(a), l1, FixedSix(x));
    assert [Str(a), Double(x)] == [Str(a)] + [Double(x)];
  }

  /** The two dump templates, cut at their directives. */
  lemma DumpZPieces()
    ensures DumpZFormat == "%s" + ".complementZ = " + "%f" + ";\r\n"
  {
  }

  lemma DumpWPieces()
    ensures DumpWFormat == "%s" + ".complementW = " + "%f" + ";\r\n"
  {
  }

  /** printf of the complementZ template. */
  lemma DumpZPrintf(v: string, z: real)
    ensures Printf(DumpZFormat, [Str(v), Double(z)]) == Some(CStr(v) + ".complementZ = " + FixedSix(z) + ";\r\n")
  {
    DumpZPieces();
    PrintfStrDouble(".complementZ = ", ";\r\n", v, z);
  }

  /** printf of the complementW template. */
  lemma DumpWPrintf(v: string, w: real)
    ensures Printf(DumpWFormat, [Str(v), Double(w)]) == Some(CStr(v) + ".complementW = " + FixedSix(w) + ";\r\n")
  {
    DumpWPieces();
    PrintfStrDouble(".complementW = ", ";\r\n", v, w);
  }

  /** Two assignment statements, each terminated by ";\r\n", are two lines. */
  lemma TwoStatementLines(a: string, b: string)
    ensures '\r' !in a && '\r' !in b ==> Lines((a + ";\r\n") + (b + ";\r\n")) == [a + ";", b + ";"]
  {
    if '\r' in a || '\r' in b {
      return;
    }
    assert (a + ";\r\n") + (b + ";\r\n") == (a + ";") + "\r\n" + ((b + ";") + "\r\n" + "");
    LinesCons(a + ";", (b + ";") + "\r\n" + "");
    LinesCons(b + ";", "");
  }

  /** A statement `v<field> = <value>` holds no carriage return when v holds none. */
  lemma StatementFree(v: string, field: string, value: string)
    requires '\r' !in field && '\r' !in value
    ensures '\r' !in v ==> '\r' !in CStr(v) + field + value
  {
  }

  /** The two statements of the dump split into two lines when v holds no carriage return. */
  lemma DumpLines(v: string, z: real, w: real)
    ensures '\r' !in v ==>
      Lines((CStr(v) + ".complementZ = " + FixedSix(z) + ";\r\n") + (CStr(v) + ".complementW = " + FixedSix(w) + ";\r\n"))
        == [CStr(v) + ".complementZ = " + FixedSix(z) + ";", CStr(v) + ".complementW = " + FixedSix(w) + ";"]
  {
    if '\r' !in v {
      var a := CStr(v) + ".complementZ = " + FixedSix(z);
      var b := CStr(v) + ".complementW = " + FixedSix(w);
      StatementFree(v, ".complementZ = ", FixedSix(z));
      StatementFree(v, ".complementW = ", FixedSix(w));
      TwoStatementLines(a, b);
    }
  }

  class TransformBlock {
    var name: string
    var target: BlockTarget
    var complementW: real
    var complementZ: real
    var inputs: seq<ConnectionPoint>
    var outputs: seq<ConnectionPoint>
    var codeVariableName: string

    /** The ports registered by the constructor are in place. */
    ghost predicate Valid()
      reads this
    {
      && |inputs| == 2 && |outputs| == 1
      && inputs[0].name == "vector" && inputs[0].pointType == AutoDetect
      && inputs[1].name == "transform" && inputs[1].pointType == Matrix
      && outputs[0].name == "output" && outputs[0].pointType == Vector4
    }

    /**
     * A new, unconnected block in the neutral target. The observer it attaches
     * to the "vector" input is the method OnVectorConnection.
     */
    constructor (name: string)
      ensures Valid()
      ensures this.name == name && target == Neutral
      ensures complementW == 1.0 && complementZ == 0.0
      ensures inputs[0].connectedPoint.None? && inputs[1].connectedPoint.None? && outputs[0].connectedPoint.None?
      ensures codeVariableName == ""
    {
      this.name := name;
      target := Neutral;
      complementW := 1.0;
      complementZ := 0.0;
      inputs := [ConnectionPoint("vector", AutoDetect, None), ConnectionPoint("transform", Matrix, None)];
      outputs := [ConnectionPoint("output", Vector4, None)];
      codeVariableName := "";
    }

    /** The connection observer of the "vector" input: connecting an input block named "normal" sets complementW to 0. */
    method OnVectorConnection(other: Option<Peer>)
      modifies this`complementW
      ensures complementW == if other.Some? && other.value.ownerIsInput && other.value.ownerName == "normal"
                             then 0.0 else old(complementW)
    {
      if other.Some? && other.value.ownerIsInput {
        if other.value.ownerName == "normal" {
          complementW := 0.0;
        }
      }
    }

    function GetClassName(): (r: string)
      ensures r == "TransformBlock"
    {
      "TransformBlock"
    }

    /** get_vector: input 0. */
    function Vector(): (p: ConnectionPoint)
      reads this
      requires Valid()
      ensures p == inputs[0] && p.name == "vector" && p.pointType == AutoDetect
    {
      inputs[0]
    }

    /** get_transform: input 1. */
    function Transform(): (p: ConnectionPoint)
      reads this
      requires Valid()
      ensures p == inputs[1] && p.name == "transform" && p.pointType == Matrix
    {
      inputs[1]
    }

    /** get_output: output 0. */
    function Output(): (p: ConnectionPoint)
      reads this
      requires Valid()
      ensures p == outputs[0] && p.name == "output" && p.pointType == Vector4
    {
      outputs[0]
    }

    /**
     * _buildBlock: appends the transform line for the vector input's connected
     * type to the compilation string and returns the block. The source reads
     * the connected point without a null check, so the vector input must be
     * connected. The base block's own step is taken to add nothing.
     */
    method BuildBlock(state: BuildState, em: Emitters) returns (self: TransformBlock)
      requires Valid()
      requires inputs[0].connectedPoint.Some?
      modifies state
      ensures self == this
      ensures state.compilationString == old(state.compilationString)
        + TransformLine(inputs[0].connectedPoint.value.pointType, em.declareOutput(outputs[0]),
                        em.variableName(inputs[1]), em.variableName(inputs[0]),
                        em.writeFloat(complementZ), em.writeFloat(complementW))
      ensures old(state.compilationString) <= state.compilationString
    {
      var connected := Vector().connectedPoint.value.pointType;
      var line := TransformLine(connected, em.declareOutput(Output()), em.variableName(Transform()),
                                em.variableName(Vector()), em.writeFloat(complementZ), em.writeFloat(complementW));
      state.compilationString := state.compilationString + line;
      self := this;
    }

    /** serialize: the block writes no JSON of its own. */
    function Serialize(): (j: Json)
      ensures j == JNull
    {
      JNull
    }

    /** _deserialize: reads nothing and changes nothing. */
    method Deserialize(serializationObject: Json, rootUrl: string)
      ensures unchanged(this)
    {
    }

    /** _dumpPropertiesCode: one assignment line for complementZ, then one for complementW. */
    function DumpPropertiesCode(): (code: string)
      reads this
      ensures code == (CStr(codeVariableName) + ".complementZ = " + FixedSix(complementZ) + ";\r\n")
                    + (CStr(codeVariableName) + ".complementW = " + FixedSix(complementW) + ";\r\n")
      ensures '\r' !in codeVariableName ==>
        Lines(code) == [CStr(codeVariableName) + ".complementZ = " + FixedSix(complementZ) + ";",
                        CStr(codeVariableName) + ".complementW = " + FixedSix(complementW) + ";"]
    {
      DumpZPrintf(codeVariableName, complementZ);
      DumpWPrintf(codeVariableName, complementW);
      DumpLines(codeVariableName, complementZ, complementW);
      Printf(DumpZFormat, [Str(codeVariableName), Double(complementZ)]).value
        + Printf(DumpWFormat, [Str(codeVariableName), Double(complementW)]).value
    }
  }

  lemma SixZeros()
    ensures PadZeros("0", 6) == "000000"
  {
    var p := PadZeros("0", 6);
    assert |p| == 6 && p[5..] == "0";
    assert p[0] == '0' && p[1] == '0' && p[2] == '0' && p[3] == '0' && p[4] == '0' && p[5] == '0';
  }

  /** What %f prints for the constructor's complements, 0 and 1. */
  lemma FixedSixOfDefaults()
    ensures FixedSix(0.0) == "0.000000"
    ensures FixedSix(1.0) == "1.000000"
  {
    SixZeros();
    assert RoundHalfEven(0.0) == 0;
    assert RoundHalfEven(1000000.0) == 1000000;
    assert Decimal(0) == "0";
    assert Decimal(1) == "1";
    assert "" + "0" + "." + "000000" == "0.000000";
    assert "" + "1" + "." + "000000" == "1.000000";
  }

  /** With the constructor's complements, the dump reads 0.000000 for complementZ and 1.000000 for complementW. */
  lemma DefaultDump(b: TransformBlock)
    requires b.complementZ == 0.0 && b.complementW == 1.0
    ensures b.DumpPropertiesCode() == (CStr(b.codeVariableName) + ".complementZ = " + "0.000000" + ";\r\n")
                                    + (CStr(b.codeVariableName) + ".complementW = " + "1.000000" + ";\r\n")
  {
    FixedSixOfDefaults();
  }
}
