/**
 * The "nop-bytes" format checker, scripts/formatchecker/nop_bytes.py.
 *
 * A PID descriptor is a JSON object; the checker reads `expr`, `expr.val`,
 * `bytes` and `expr.type`, in that order, and for passthrough ("nop") PIDs
 * checks the CAN byte count against the output type. A raised FormatError is
 * a Failure carrying its kind; the message each kind raises is Message.
 */
module NopBytes {

  import opened Wrappers

  /** A Python float as a YAML or JSON document can give it. */
  datatype PyFloat = Finite(r: real) | Infinity(negative: bool) | NaN

  /**
   * A value a descriptor field can hold. The contents of a list or an
   * object held in `bytes`, `val` or `type` are never read, so Compound
   * stands for both.
   */
  datatype Value = Str(s: string) | Int(i: int) | Bool(b: bool) | Float(f: PyFloat) | Null | Compound

  /**
   * The `expr` field: an object with its `val` and `type` keys, each
   * possibly missing, or any value that is not an object, on which a key
   * lookup raises TypeError.
   */
  datatype ExprNode = ExprNode(val: Option<Value>, pidType: Option<Value>) | NotObject

  /** The PID descriptor: its `expr` and `bytes` keys, each possibly missing. */
  datatype Descriptor = Descriptor(expr: Option<ExprNode>, bytes: Option<Value>)

  /** The distinct reasons for raising FormatError. */
  datatype FormatError =
    | MissingExpr
    | MissingVal
    | MissingBytes
    | NonIntegerBytes
    | MissingType
    | FloatWidth
    | Int8Width
    | Int16Width
    | Int32Width

  /** The built-in exceptions int() and a key lookup can raise. */
  datatype PyError = ValueError | TypeError | OverflowError

  /** What check() raises: a FormatError, or an exception it does not catch. */
  datatype Raised = Format(error: FormatError) | Uncaught(exc: PyError)

  // ---------------------------------------------------------------------
  // Python's int() on the values a descriptor can hold
  // ---------------------------------------------------------------------

  /**
   * The characters int() strips from both ends of a string: the ASCII tab
   * to carriage return and space, plus the characters above U+007F that
   * str.isspace accepts. The ASCII separators U+001C to U+001F are
   * str.isspace characters too, but int() keeps them.
   */
  predicate IsIntSpace(c: char)
  {
    || '\U{0009}' <= c <= '\U{000D}'
    || c == '\U{0020}'
    || c == '\U{0085}' || c == '\U{00A0}' || c == '\U{1680}'
    || '\U{2000}' <= c <= '\U{200A}'
    || c == '\U{2028}' || c == '\U{2029}' || c == '\U{202F}' || c == '\U{205F}' || c == '\U{3000}'
  }

  predicate IsDigit(c: char)
  {
    '0' <= c <= '9'
  }

  /** The string with leading and trailing whitespace removed. */
  function Strip(s: string): (t: string)
    ensures |t| <= |s|
    ensures t != [] ==> !IsIntSpace(t[0]) && !IsIntSpace(t[|t| - 1])
    decreases |s|
  {
    if s == [] then s
    else if IsIntSpace(s[0]) then Strip(s[1..])
    else if IsIntSpace(s[|s| - 1]) then Strip(s[..|s| - 1])
    else s
  }

  /** Everything of `s` before `i` and from `j` on is whitespace. */
  predicate SpaceOutside(s: string, i: nat, j: nat)
  {
    && i <= j <= |s|
    && (forall k :: 0 <= k < i ==> IsIntSpace(s[k]))
    && (forall k :: j <= k < |s| ==> IsIntSpace(s[k]))
  }

  /** Strip removes whitespace from the two ends and nothing else. */
  lemma {:induction false} StripRemovesOnlySpace(s: string)
    ensures exists i: nat, j: nat :: SpaceOutside(s, i, j) && Strip(s) == s[i..j]
    decreases |s|
  {
    if s == [] {
      assert SpaceOutside(s, 0, 0) && Strip(s) == s[0..0];
    } else if IsIntSpace(s[0]) {
      StripRemovesOnlySpace(s[1..]);
      var i: nat, j: nat :| SpaceOutside(s[1..], i, j) && Strip(s[1..]) == s[1..][i..j];
      SpaceOutsideAfterFirst(s, i, j);
    } else if IsIntSpace(s[|s| - 1]) {
      StripRemovesOnlySpace(s[..|s| - 1]);
      var i: nat, j: nat :| SpaceOutside(s[..|s| - 1], i, j) && Strip(s[..|s| - 1]) == s[..|s| - 1][i..j];
      SpaceOutsideBeforeLast(s, i, j);
    } else {
      assert SpaceOutside(s, 0, |s|) && Strip(s) == s[0..|s|];
    }
  }

  lemma SpaceOutsideAfterFirst(s: string, i: nat, j: nat)
    requires s != [] && IsIntSpace(s[0]) && SpaceOutside(s[1..], i, j)
    ensures SpaceOutside(s, i + 1, j + 1) && s[1..][i..j] == s[i + 1..j + 1]
  {
    forall k | 0 < k < i + 1 || j + 1 <= k < |s|
      ensures IsIntSpace(s[k])
    {
      assert s[k] == s[1..][k - 1];
    }
  }

  lemma SpaceOutsideBeforeLast(s: string, i: nat, j: nat)
    requires s != [] && IsIntSpace(s[|s| - 1]) && SpaceOutside(s[..|s| - 1], i, j)
    ensures SpaceOutside(s, i, j) && s[..|s| - 1][i..j] == s[i..j]
  {
    forall k | 0 <= k < i || j <= k < |s| - 1
      ensures IsIntSpace(s[k])
    {
      assert s[k] == s[..|s| - 1][k];
    }
  }

  /**
   * A base-10 digit group as int() accepts it: digits, where single
   * underscores may separate two digits.
   */
  predicate IsDigitGroup(s: string)
  {
    && s != []
    && IsDigit(s[0])
    && IsDigit(s[|s| - 1])
    && (forall i :: 0 <= i < |s| ==> IsDigit(s[i]) || s[i] == '_')
    && (forall i :: 0 <= i < |s| - 1 && s[i] == '_' ==> s[i + 1] != '_')
  }

  /** The value of the digits of `s`, underscores skipped. */
  function DigitsValue(s: string): (v: nat)
  {
    if s == [] then 0
    else if IsDigit(s[|s| - 1]) then
      10 * DigitsValue(s[..|s| - 1]) + (s[|s| - 1] - '0') as int
    else DigitsValue(s[..|s| - 1])
  }

  /** int(s) for a string: None where Python raises ValueError. */
  function ParseInt(s: string): (r: Option<int>)
    ensures r.Some? ==> Strip(s) != []
    ensures r.Some? ==> var t := Strip(s);
              IsDigitGroup(t) || (|t| > 1 && (t[0] == '+' || t[0] == '-') && IsDigitGroup(t[1..]))
  {
    var t := Strip(s);
    if t != [] && (t[0] == '+' || t[0] == '-') then
      if IsDigitGroup(t[1..]) then
        var m: int := DigitsValue(t[1..]);
        Some(if t[0] == '-' then -m else m)
      else None
    else if IsDigitGroup(t) then Some(DigitsValue(t))
    else None
  }

  /** int() of a finite float: the float with its fraction dropped, towards zero. */
  function TruncateTowardZero(r: real): (n: int)
    ensures r >= 0.0 ==> n as real <= r < n as real + 1.0
    ensures r < 0.0 ==> n as real - 1.0 < r <= n as real
  {
    if r >= 0.0 then r.Floor else -((-r).Floor)
  }

  /**
   * int(v): integers are kept, booleans are 0 or 1, finite floats are
   * truncated, strings are parsed (ValueError when they do not read as an
   * integer); NaN raises ValueError, an infinity OverflowError, and None, a
   * list or an object TypeError.
   */
  function PyInt(v: Value): (r: Result<int, PyError>)
    ensures r == Failure(TypeError) <==> v.Null? || v.Compound?
    ensures r == Failure(OverflowError) <==> v.Float? && v.f.Infinity?
    ensures r == Failure(ValueError) <==> (v.Float? && v.f.NaN?) || (v.Str? && ParseInt(v.s).None?)
    ensures v.Int? ==> r == Success(v.i)
  {
    match v
    case Int(i) => Success(i)
    case Bool(b) => Success(if b then 1 else 0)
    case Str(s) => if ParseInt(s).Some? then Success(ParseInt(s).value) else Failure(ValueError)
    case Float(f) =>
      (match f
       case Finite(r) => Success(TruncateTowardZero(r))
       case Infinity(_) => Failure(OverflowError)
       case NaN => Failure(ValueError))
    case Null => Failure(TypeError)
    case Compound => Failure(TypeError)
  }

  /** str(n) for a natural number: its decimal digits, no leading zero. */
  function NatToString(n: nat): (s: string)
    ensures s != [] && forall i :: 0 <= i < |s| ==> IsDigit(s[i])
  {
    if n < 10 then [('0' as int + n) as char]
    else NatToString(n / 10) + [('0' as int + n % 10) as char]
  }

  /** str(n) for any integer. */
  function IntToString(n: int): string
  {
    if n < 0 then "-" + NatToString(-n) else NatToString(n)
  }

  lemma {:induction false} DigitsValueOfNatToString(n: nat)
    ensures DigitsValue(NatToString(n)) == n
  {
    var s := NatToString(n);
    if n >= 10 {
      DigitsValueOfNatToString(n / 10);
      assert s[..|s| - 1] == NatToString(n / 10);
    }
  }

  /** int(str(n)) == n: the integers a JSON writer prints are read back. */
  lemma {:induction false} ParseIntOfIntToString(n: int)
    ensures ParseInt(IntToString(n)) == Some(n)
  {
    var s := IntToString(n);
    var digits := NatToString(if n < 0 then -n else n);
    DigitsValueOfNatToString(if n < 0 then -n else n);
    assert !IsIntSpace(s[0]) && !IsIntSpace(s[|s| - 1]);
    StripUnspaced(s);
    if n < 0 {
      assert s[1..] == digits;
    }
  }

  /** int() strips a no-break space and a newline, but not the ASCII separator U+001C. */
  lemma SeparatorIsNotStripped()
    ensures ParseInt("\U{001C}5").None?
    ensures ParseInt("\U{00A0}5\n") == Some(5)
  {
    assert Strip("\U{001C}5") == "\U{001C}5";
    assert Strip("\U{00A0}5\n") == Strip("5\n") == Strip("5") == "5";
  }

  /** A string that neither starts nor ends with whitespace is its own strip. */
  lemma StripUnspaced(s: string)
    requires s != [] && !IsIntSpace(s[0]) && !IsIntSpace(s[|s| - 1])
    ensures Strip(s) == s
  {
  }

  // ---------------------------------------------------------------------
  // The checker
  // ---------------------------------------------------------------------

  /**
   * The width table for passthrough PIDs, first failing row wins; a type
   * that is not listed passes.
   */
  function WidthRule(pidType: Value, n: int): Result<bool, Raised>
  {
    if pidType == Str("float") && n != 4 then Failure(Format(FloatWidth))
    else if (pidType == Str("int8") || pidType == Str("uint8")) && n != 1 then Failure(Format(Int8Width))
    else if (pidType == Str("int16") || pidType == Str("uint16")) && !(1 <= n <= 2) then Failure(Format(Int16Width))
    else if (pidType == Str("int32") || pidType == Str("uint32")) && !(1 <= n <= 4) then Failure(Format(Int32Width))
    else Success(true)
  }

  /**
   * check(desc): True, the first FormatError raised, or the exception that
   * escapes it: int() raises only ValueError inside its handler, and a key
   * lookup on an `expr` that is not an object raises TypeError.
   */
  function Check(d: Descriptor): (r: Result<bool, Raised>)
    ensures r.Success? ==> r.value
    ensures r.Failure? && r.error.Uncaught? ==> r.error.exc != ValueError
  {
    match d.expr
    case None => Failure(Format(MissingExpr))
    case Some(NotObject) => Failure(Uncaught(TypeError))
    case Some(e) =>
      match e.val
      case None => Failure(Format(MissingVal))
      case Some(v) =>
        if v != Str("nop") then Success(true)
        else
          match d.bytes
          case None => Failure(Format(MissingBytes))
          case Some(b) =>
            match PyInt(b)
            case Failure(ValueError) => Failure(Format(NonIntegerBytes))
            case Failure(exc) => Failure(Uncaught(exc))
            case Success(n) =>
              match e.pidType
              case None => Failure(Format(MissingType))
              case Some(t) => WidthRule(t, n)
  }

  // ---------------------------------------------------------------------
  // Properties
  // ---------------------------------------------------------------------

  /** A descriptor without `expr` fails with that error, whatever else it holds. */
  lemma MissingExprFirst(d: Descriptor)
    ensures d.expr.None? <==> Check(d) == Failure(Format(MissingExpr))
  {
  }

  /** An `expr` that is not an object makes the `val` lookup raise TypeError, which escapes. */
  lemma ExprNotObjectRaises(d: Descriptor)
    requires d.expr == Some(NotObject)
    ensures Check(d) == Failure(Uncaught(TypeError))
  {
  }

  /** An `expr` without `val` fails with the missing-val error. */
  lemma MissingValSecond(d: Descriptor)
    ensures (d.expr.Some? && d.expr.value.ExprNode? && d.expr.value.val.None?)
            <==> Check(d) == Failure(Format(MissingVal))
  {
  }

  /** A formula PID passes, whatever its `bytes` and `type` hold, if they exist at all. */
  lemma FormulaAccepted(d: Descriptor, bytes: Option<Value>, pidType: Option<Value>)
    requires d.expr.Some? && d.expr.value.ExprNode?
    requires d.expr.value.val.Some? && d.expr.value.val.value != Str("nop")
    ensures Check(d) == Success(true)
    ensures Check(Descriptor(Some(d.expr.value.(pidType := pidType)), bytes)) == Success(true)
  {
  }

  /** The passthrough marker as a descriptor holds it. */
  predicate IsNop(d: Descriptor)
  {
    d.expr.Some? && d.expr.value.ExprNode? && d.expr.value.val == Some(Str("nop"))
  }

  /**
   * For "nop": no `bytes` fails, `bytes` on which int() raises ValueError
   * fails with its own error, any other exception of int() escapes, and
   * with valid `bytes` a missing `type` fails.
   */
  lemma NopStructuralErrors(d: Descriptor)
    requires IsNop(d)
    ensures d.bytes.None? <==> Check(d) == Failure(Format(MissingBytes))
    ensures (d.bytes.Some? && PyInt(d.bytes.value) == Failure(ValueError))
            <==> Check(d) == Failure(Format(NonIntegerBytes))
    ensures (d.bytes.Some? && PyInt(d.bytes.value).Failure? && PyInt(d.bytes.value).error != ValueError)
            <==> Check(d).Failure? && Check(d).error.Uncaught?
    ensures Check(d).Failure? && Check(d).error.Uncaught? ==> Check(d).error.exc == PyInt(d.bytes.value).error
    ensures (d.bytes.Some? && PyInt(d.bytes.value).Success? && d.expr.value.pidType.None?)
            <==> Check(d) == Failure(Format(MissingType))
  {
  }

  /**
   * `bytes` given as a float is truncated before the width rule: 4.7 CAN
   * bytes pass for a float PID.
   */
  lemma FloatBytesTruncated(d: Descriptor, r: real)
    requires IsNop(d) && d.bytes == Some(Float(Finite(r)))
    ensures Check(d) == Check(d.(bytes := Some(Int(TruncateTowardZero(r)))))
    ensures 4.0 <= r < 5.0 && d.expr.value.pidType == Some(Str("float")) ==> Check(d) == Success(true)
  {
  }

  /** A well-formed passthrough descriptor with the given type and byte count. */
  function NopDescriptor(pidType: string, bytes: int): Descriptor
  {
    Descriptor(Some(ExprNode(Some(Str("nop")), Some(Str(pidType)))), Some(Int(bytes)))
  }

  /**
   * The table row by row: float iff 4 bytes, int8/uint8 iff 1 byte,
   * int16/uint16 iff 1 to 2 bytes, int32/uint32 iff 1 to 4 bytes, and any
   * other type string passes whatever the count.
   */
  lemma WidthTable(t: string, n: int)
    ensures t == "float" ==> (Check(NopDescriptor(t, n)).Success? <==> n == 4)
    ensures t in {"int8", "uint8"} ==> (Check(NopDescriptor(t, n)).Success? <==> n == 1)
    ensures t in {"int16", "uint16"} ==> (Check(NopDescriptor(t, n)).Success? <==> 1 <= n <= 2)
    ensures t in {"int32", "uint32"} ==> (Check(NopDescriptor(t, n)).Success? <==> 1 <= n <= 4)
    ensures t !in {"float", "int8", "uint8", "int16", "uint16", "int32", "uint32"} ==>
              Check(NopDescriptor(t, n)) == Success(true)
  {
  }

  /**
   * The storage size of each listed output type: the reference the width
   * table is drawn from (a raw value is never narrowed, a float is exactly
   * its four IEEE-754 bytes).
   */
  function Capacity(t: string): Option<nat>
  {
    if t == "int8" || t == "uint8" then Some(1)
    else if t == "int16" || t == "uint16" then Some(2)
    else if t == "int32" || t == "uint32" || t == "float" then Some(4)
    else None
  }

  /** A byte count fits a type: exact for float, widening-only for integers. */
  predicate Fits(t: string, n: int)
  {
    match Capacity(t)
    case None => true
    case Some(cap) => if t == "float" then n == cap else 1 <= n <= cap
  }

  /**
   * The whole checker against the reference: a descriptor passes iff its
   * keys are present as far as they are read and, for "nop", the byte count
   * fits the declared type.
   */
  lemma CheckMeansFits(d: Descriptor)
    requires IsNop(d) && d.bytes.Some? && PyInt(d.bytes.value).Success? && d.expr.value.pidType.Some?
    ensures var t := d.expr.value.pidType.value;
            Check(d).Success? <==> (t.Str? ==> Fits(t.s, PyInt(d.bytes.value).value))
  {
  }

  // ---------------------------------------------------------------------
  // The messages raised
  // ---------------------------------------------------------------------

  /**
   * The text each FormatError carries as the source writes it, before the
   * descriptor is formatted into it.
   */
  function MessageAsWritten(e: FormatError): string
  {
    match e
    case MissingExpr => "no \"expr\" key in "
    case MissingVal => "no \"val\" key in expr in "
    case MissingBytes => "no \"bytes\" key in "
    case NonIntegerBytes => "can_bytes value is not an int, in "
    case MissingType => "no \"expr\" key in "
    case FloatWidth => "float output type must have 4 CAN bytes in "
    case Int8Width => "int8/uint8 types must have 1 CAN byte in "
    case Int16Width => RangeMessage("int8/uint8", "1-2")
    case Int32Width => RangeMessage("int32/uint32", "1-2")
  }

  /** A missing `type` is reported exactly like a missing `expr`. */
  lemma MissingTypeReadsAsMissingExpr()
    ensures Check(Descriptor(Some(ExprNode(Some(Str("nop")), None)), Some(Int(1)))) == Failure(Format(MissingType))
    ensures MessageAsWritten(MissingType) == MessageAsWritten(MissingExpr)
  {
  }

  /** A width error that names the types and the byte counts they allow. */
  function RangeMessage(types: string, range: string): string
  {
    types + " types must have " + range + " CAN bytes in "
  }

  /** The types and the byte counts the WidthRule branch raising `e` checks. */
  function RuleOf(e: FormatError): (string, string)
    requires e == Int16Width || e == Int32Width
  {
    if e == Int16Width then ("int16/uint16", "1-2") else ("int32/uint32", "1-4")
  }

  /**
   * Neither range error states the rule that raised it: the int16/uint16
   * error names the int8/uint8 types, and the int32/uint32 error gives the
   * range 1-2. The corrected texts state it.
   */
  lemma WidthMessagesMisstateRule(e: FormatError)
    requires e == Int16Width || e == Int32Width
    ensures MessageAsWritten(e) != RangeMessage(RuleOf(e).0, RuleOf(e).1)
    ensures Message(e) == RangeMessage(RuleOf(e).0, RuleOf(e).1)
  {
    if e == Int16Width {
      assert MessageAsWritten(e)[3] == '8' != RangeMessage(RuleOf(e).0, RuleOf(e).1)[3];
    } else {
      assert MessageAsWritten(e)[31] == '2' != RangeMessage(RuleOf(e).0, RuleOf(e).1)[31];
    }
  }

  /** The text each FormatError should carry: it names the key or the rule. */
  function Message(e: FormatError): string
  {
    match e
    case MissingExpr => "no \"expr\" key in "
    case MissingVal => "no \"val\" key in expr in "
    case MissingBytes => "no \"bytes\" key in "
    case NonIntegerBytes => "can_bytes value is not an int, in "
    case MissingType => "no \"type\" key in expr in "
    case FloatWidth => "float output type must have 4 CAN bytes in "
    case Int8Width => "int8/uint8 types must have 1 CAN byte in "
    case Int16Width => RangeMessage("int16/uint16", "1-2")
    case Int32Width => RangeMessage("int32/uint32", "1-4")
  }

  /** The length of each corrected message; only the two range errors share one. */
  function MessageLength(e: FormatError): nat
  {
    match e
    case MissingExpr => 17
    case MissingVal => 24
    case MissingBytes => 18
    case NonIntegerBytes => 34
    case MissingType => 25
    case FloatWidth => 43
    case Int8Width => 41
    case Int16Width => 46
    case Int32Width => 46
  }

  lemma MessageHasLength(e: FormatError)
    ensures |Message(e)| == MessageLength(e)
  {
  }

  /** Distinct errors carry distinct messages, so a message names its error. */
  lemma MessagesDistinct(e1: FormatError, e2: FormatError)
    requires e1 != e2
    ensures Message(e1) != Message(e2)
  {
    MessageHasLength(e1);
    MessageHasLength(e2);
    if MessageLength(e1) == MessageLength(e2) {
      assert Message(e1)[3] != Message(e2)[3];
    }
  }
}
