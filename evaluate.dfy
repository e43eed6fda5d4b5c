/**
 * Evaluating a PID's payload, src/eval.c: the postfix integer evaluator
 * generated by DEFINE_EVAL_FUNC(int32_t, EXPR_INT32), and the integer
 * branches of nop_eval, which read the payload bytes as an unsigned number.
 *
 * The evaluator works on `int_fast32_t` values, which glibc on 64-bit
 * targets makes a `long`; its result is stored in an `int32_t` before it is
 * returned. Division by zero and arithmetic outside the range of `long` are
 * undefined behaviour in C; the evaluator requires their absence, which the
 * specification `Exec` states as the faults DivByZero and Overflow. The
 * final conversion to `float` is not part of this model.
 */
module Evaluate {

  import opened Wrappers
  import opened LibC
  import opened Stacks
  import opened Expression
  import opened Frames

  /**
   * Why an evaluation does not produce a value: an assertion of the C code
   * fails (too few operands, a float token, not exactly one value left), or
   * an operation is undefined in C.
   */
  datatype EvalFault = StackUnderflow | NotInteger | NotSingleResult | DivByZero | Overflow

  function Abs(x: int): nat
  {
    if x < 0 then -x else x
  }

  /** C division: the quotient rounded toward zero. */
  function CDiv(a: int, b: int): (q: int)
    requires b != 0
    ensures var rem := a - b * q;
            Abs(rem) < Abs(b) && (rem == 0 || (rem < 0 <==> a < 0))
  {
    var q := Abs(a) / Abs(b);
    if (a < 0) == (b < 0) then q else -q
  }

  /** The four operators on unbounded integers. */
  function Arith(op: OpKind, left: int, right: int): int
    requires op == OpDiv ==> right != 0
  {
    match op
    case OpAdd => left + right
    case OpSub => left - right
    case OpMul => left * right
    case OpDiv => CDiv(left, right)
  }

  /** `left op right` in `long`, or the undefined behaviour it would be. */
  function ApplyOp(op: OpKind, left: int, right: int): (r: Result<int, EvalFault>)
    ensures r.Success? ==> LongMin <= r.value <= LongMax
    ensures r == Failure(DivByZero) <==> op == OpDiv && right == 0
  {
    if op == OpDiv && right == 0 then Failure(DivByZero)
    else
      var v := Arith(op, left, right);
      if LongMin <= v <= LongMax then Success(v) else Failure(Overflow)
  }

  /**
   * One token of the loop of eval_expr_int32_t on the stack of values `st`
   * (bottom first): A to D push the data bytes, an integer literal pushes
   * itself, an operator pops the right operand and then the left one and
   * pushes `left op right`, and a float literal is an assertion failure.
   */
  function ExecToken(t: ExprToken, data: seq<Byte>, st: seq<int>): (r: Result<seq<int>, EvalFault>)
    requires |data| >= 4
    ensures r.Success? && t.ExprOp? ==> |st| >= 2 && |r.value| == |st| - 1 && r.value[..|st| - 2] == st[..|st| - 2]
    ensures r.Success? && !t.ExprOp? ==> |r.value| == |st| + 1 && r.value[..|st|] == st
    ensures r == Failure(StackUnderflow) <==> t.ExprOp? && |st| < 2
    ensures r == Failure(NotInteger) <==> t.ExprFloat?
  {
    match t
    case ExprA => Success(st + [data[0]])
    case ExprB => Success(st + [data[1]])
    case ExprC => Success(st + [data[2]])
    case ExprD => Success(st + [data[3]])
    case ExprInt32(v) => Success(st + [v])
    case ExprFloat(_) => Failure(NotInteger)
    case ExprOp(op) =>
      if |st| < 2 then Failure(StackUnderflow)
      else
        var v :- ApplyOp(op, st[|st| - 2], st[|st| - 1]);
        Success(st[..|st| - 2] + [v])
  }

  /** The loop of eval_expr_int32_t over `ts`, from the stack `st`. */
  function Exec(ts: seq<ExprToken>, data: seq<Byte>, st: seq<int>): (r: Result<seq<int>, EvalFault>)
    requires |data| >= 4
    ensures r.Success? ==> |r.value| <= |st| + |ts|
    decreases |ts|
  {
    if ts == [] then Success(st)
    else
      var next :- ExecToken(ts[0], data, st);
      Exec(ts[1..], data, next)
  }

  /** The conversion of an integer to int32_t (modulo 2^32, as GCC defines it). */
  function Wrap32(v: int): (r: int)
    ensures -0x8000_0000 <= r < 0x8000_0000
    ensures (v - r) % 0x1_0000_0000 == 0
    ensures -0x8000_0000 <= v < 0x8000_0000 ==> r == v
  {
    var m := v % 0x1_0000_0000;
    if m >= 0x8000_0000 then m - 0x1_0000_0000 else m
  }

  /**
   * eval_expr_int32_t: the loop over the expression's tokens, then exactly
   * one value must remain, which is returned as an int32_t.
   */
  function EvalInt(e: Expr, data: seq<Byte>): (r: Result<int, EvalFault>)
    requires |data| >= 4
    ensures r.Success? ==> -0x8000_0000 <= r.value < 0x8000_0000
  {
    var st :- Exec(e.data, data, []);
    if |st| == 1 then Success(Wrap32(st[0])) else Failure(NotSingleResult)
  }

  /** The evaluation reaches no undefined behaviour. */
  predicate Defined(r: Result<seq<int>, EvalFault>)
  {
    r != Failure(DivByZero) && r != Failure(Overflow)
  }

  /** The evaluation stack's contents for the values `vs`. */
  function IntTokens(vs: seq<int>): (ts: seq<ExprToken>)
    ensures |ts| == |vs|
    ensures forall i :: 0 <= i < |vs| ==> ts[i] == ExprInt32(vs[i])
  {
    seq(|vs|, i requires 0 <= i < |vs| => ExprInt32(vs[i]))
  }

  /** The truncating division of C differs from Dafny's for negative operands. */
  lemma CDivTruncates()
    ensures CDiv(-7, 2) == -3 && -7 / 2 == -4
    ensures CDiv(7, -2) == -3 && CDiv(-7, -2) == 3 && CDiv(7, 2) == 3
  {
  }

  /**
   * One pass of the loop of eval_expr_int32_t on the token `tok`, with the
   * stack holding the values `vals`.
   */
  method ExecTokenOnStack(tok: ExprToken, data: seq<Byte>, stack: Stack<ExprToken>, ghost vals: seq<int>)
    returns (r: Outcome<EvalFault>, ghost next: seq<int>)
    requires |data| >= 4
    requires stack.Valid() && stack.Contents() == IntTokens(vals) && stack.Size() < stack.MaxSize()
    requires Defined(ExecToken(tok, data, vals))
    modifies stack, stack.buf
    ensures stack.Valid()
    ensures r == Pass ==> ExecToken(tok, data, vals) == Success(next) && stack.Contents() == IntTokens(next)
    ensures r.Fail? ==> ExecToken(tok, data, vals) == Failure(r.error)
  {
    next := vals;
    match tok {
      case ExprA =>
        stack.Push(ExprInt32(data[0]));
        next := vals + [data[0]];
      case ExprB =>
        stack.Push(ExprInt32(data[1]));
        next := vals + [data[1]];
      case ExprC =>
        stack.Push(ExprInt32(data[2]));
        next := vals + [data[2]];
      case ExprD =>
        stack.Push(ExprInt32(data[3]));
        next := vals + [data[3]];
      case ExprInt32(v) =>
        stack.Push(tok);
        next := vals + [v];
      case ExprFloat(_) =>
        return Fail(NotInteger), next;
      case ExprOp(op) =>
        if stack.Size() < 2 {
          return Fail(StackUnderflow), next;
        }
        var tok1 := stack.Pop();
        var tok2 := stack.Pop();
        // Both are EXPR_INT32: nothing else is ever pushed.
        var right := tok1.value;
        var left := tok2.value;
        var v := Arith(op, left, right);
        stack.Push(ExprInt32(v));
        next := vals[..|vals| - 2] + [v];
    }
    r := Pass;
  }

  /**
   * eval_expr_int32_t on a stack whose capacity is the expression's size.
   * The result, before its conversion to float, is EvalInt's.
   */
  method EvalExprInt32(e: Expr, stack: Stack<ExprToken>, data: seq<Byte>) returns (r: Result<int, EvalFault>)
    requires e.size == |e.data| && |data| >= 4
    requires stack.Valid() && stack.Contents() == [] && stack.MaxSize() == e.size
    requires Defined(Exec(e.data, data, []))
    modifies stack, stack.buf
    ensures r == EvalInt(e, data)
  {
    ghost var vals: seq<int> := [];
    var i := 0;
    while i < e.size
      invariant 0 <= i <= e.size
      invariant stack.Valid() && stack.maxSize == e.size
      invariant stack.Contents() == IntTokens(vals)
      invariant |vals| <= i
      invariant Exec(e.data, data, []) == Exec(e.data[i..], data, vals)
    {
      var tok := e.data[i];
      assert e.data[i..][0] == tok && e.data[i..][1..] == e.data[i + 1..];
      var step;
      step, vals := ExecTokenOnStack(tok, data, stack, vals);
      if step.Fail? {
        return Failure(step.error);
      }
      i := i + 1;
    }
    assert e.data[e.size..] == [];
    if stack.Size() != 1 {
      return Failure(NotSingleResult);
    }
    var result := stack.Pop();
    r := Success(Wrap32(result.value));
  }

  /**
   * stack_eval for an integer PID type: the evaluation stack gets room for
   * as many tokens as the expression has.
   */
  method StackEvalInt(e: Expr, data: seq<Byte>) returns (r: Result<int, EvalFault>)
    requires e.size == |e.data| && |data| >= 4
    requires Defined(Exec(e.data, data, []))
    ensures r == EvalInt(e, data)
  {
    var buffer := new ExprToken[e.size](_ => ExprA);
    var stack := new Stack<ExprToken>.Init(buffer, e.size);
    r := EvalExprInt32(e, stack, data);
  }

  /** An arithmetic expression over the data bytes A to D and literals. */
  datatype Term =
    | ByteA
    | ByteB
    | ByteC
    | ByteD
    | Literal(v: int)
    | Apply(op: OpKind, left: Term, right: Term)

  /** A term in postfix order, the form parse_expr produces. */
  function Postfix(t: Term): (ts: seq<ExprToken>)
    ensures |ts| >= 1
  {
    match t
    case ByteA => [ExprA]
    case ByteB => [ExprB]
    case ByteC => [ExprC]
    case ByteD => [ExprD]
    case Literal(v) => [ExprInt32(v)]
    case Apply(op, l, r) => Postfix(l) + Postfix(r) + [ExprOp(op)]
  }

  /** The value of a term in `long` arithmetic, the left operand first. */
  function Value(t: Term, data: seq<Byte>): Result<int, EvalFault>
    requires |data| >= 4
  {
    match t
    case ByteA => Success(data[0])
    case ByteB => Success(data[1])
    case ByteC => Success(data[2])
    case ByteD => Success(data[3])
    case Literal(v) => Success(v)
    case Apply(op, l, r) =>
      var a :- Value(l, data);
      var b :- Value(r, data);
      ApplyOp(op, a, b)
  }

  /** Running two token sequences one after the other. */
  lemma {:induction false} ExecAppend(a: seq<ExprToken>, b: seq<ExprToken>, data: seq<Byte>, st: seq<int>)
    requires |data| >= 4
    ensures Exec(a + b, data, st)
            == match Exec(a, data, st)
               case Success(mid) => Exec(b, data, mid)
               case Failure(f) => Failure(f)
    decreases |a|
  {
    if a == [] {
      assert a + b == b;
    } else {
      assert (a + b)[0] == a[0] && (a + b)[1..] == a[1..] + b;
      var r := ExecToken(a[0], data, st);
      if r.Success? {
        ExecAppend(a[1..], b, data, r.value);
      }
    }
  }

  /** A single operand token pushes its value. */
  lemma ExecOperand(t: Term, rest: seq<ExprToken>, data: seq<Byte>, st: seq<int>)
    requires |data| >= 4 && !t.Apply?
    ensures Value(t, data).Success?
    ensures Exec(Postfix(t) + rest, data, st) == Exec(rest, data, st + [Value(t, data).value])
  {
    assert (Postfix(t) + rest)[0] == Postfix(t)[0] && (Postfix(t) + rest)[1..] == rest;
  }

  /** An operator token applied to the two values on top of the stack. */
  lemma ExecOperator(op: OpKind, rest: seq<ExprToken>, data: seq<Byte>, st: seq<int>, a: int, b: int)
    requires |data| >= 4
    ensures Exec([ExprOp(op)] + rest, data, st + [a] + [b])
            == if ApplyOp(op, a, b).Success? then Exec(rest, data, st + [ApplyOp(op, a, b).value])
               else Failure(ApplyOp(op, a, b).error)
  {
    var st2 := st + [a] + [b];
    assert st2[..|st2| - 2] == st && st2[|st2| - 2] == a && st2[|st2| - 1] == b;
    assert ([ExprOp(op)] + rest)[0] == ExprOp(op) && ([ExprOp(op)] + rest)[1..] == rest;
  }

  /**
   * The postfix form of a term leaves the term's value on top of the
   * stack, or fails as the term's evaluation does: an operator takes the
   * value below the top as its left operand.
   */
  lemma {:induction false} PostfixPushesValue(t: Term, rest: seq<ExprToken>, data: seq<Byte>, st: seq<int>)
    requires |data| >= 4
    ensures Exec(Postfix(t) + rest, data, st)
            == match Value(t, data)
               case Success(v) => Exec(rest, data, st + [v])
               case Failure(f) => Failure(f)
  {
    if t.Apply? {
      var tail := [ExprOp(t.op)] + rest;
      assert Postfix(t) + rest == Postfix(t.left) + (Postfix(t.right) + tail);
      PostfixPushesValue(t.left, Postfix(t.right) + tail, data, st);
      if Value(t.left, data).Success? {
        var a := Value(t.left, data).value;
        PostfixPushesValue(t.right, tail, data, st + [a]);
        if Value(t.right, data).Success? {
          ExecOperator(t.op, rest, data, st, a, Value(t.right, data).value);
        }
      }
    } else {
      ExecOperand(t, rest, data, st);
    }
  }

  /**
   * Evaluating the postfix form of a term gives the term's value, converted
   * to int32_t, or the term's fault.
   */
  lemma EvalIntOfPostfix(t: Term, data: seq<Byte>)
    requires |data| >= 4
    ensures EvalInt(Expr(|Postfix(t)|, Postfix(t)), data)
            == match Value(t, data)
               case Success(v) => Success(Wrap32(v))
               case Failure(f) => Failure(f)
  {
    PostfixPushesValue(t, [], data, []);
    assert Postfix(t) + [] == Postfix(t);
  }

  /**
   * "A-B-C", which parse_expr compiles to A B C - -, evaluates to
   * A - (B - C).
   */
  lemma SubtractionGroupsRightValue(data: seq<Byte>)
    requires |data| >= 4
    ensures EvalInt(Expr(5, [ExprA, ExprB, ExprC, ExprOp(OpSub), ExprOp(OpSub)]), data)
            == Success(data[0] as int - (data[1] as int - data[2] as int))
  {
    var t := Apply(OpSub, ByteA, Apply(OpSub, ByteB, ByteC));
    assert Postfix(t) == [ExprA, ExprB, ExprC, ExprOp(OpSub), ExprOp(OpSub)];
    EvalIntOfPostfix(t, data);
  }

  // nop_eval: the payload bytes read as an unsigned number.

  /** What nop_eval reads: an integer, or the bits of an IEEE-754 float. */
  datatype NopValue = Integer(n: nat) | FloatBits(bits: nat)

  /** The bytes as an unsigned number, most significant first. */
  function BigEndianValue(bs: seq<Byte>): nat
  {
    if bs == [] then 0 else BigEndianValue(bs[..|bs| - 1]) * 0x100 + bs[|bs| - 1]
  }

  /** The bytes as an unsigned number, least significant first. */
  function LittleEndianValue(bs: seq<Byte>): nat
  {
    if bs == [] then 0 else bs[0] as int + 0x100 * LittleEndianValue(bs[1..])
  }

  function Unsigned(bs: seq<Byte>, bigEndian: bool): nat
  {
    if bigEndian then BigEndianValue(bs) else LittleEndianValue(bs)
  }

  /** be16toh / le16toh of the first two bytes. */
  function Read16(bigEndian: bool, data: seq<Byte>): nat
    requires |data| >= 2
  {
    if bigEndian then data[0] as int * 0x100 + data[1] as int
    else data[1] as int * 0x100 + data[0] as int
  }

  /** Three bytes in the configured order. */
  function Read24(bigEndian: bool, data: seq<Byte>): (r: nat)
    requires |data| >= 3
    ensures r == Unsigned(data[..3], bigEndian)
  {
    ValuesOfThree(data[..3]);
    if bigEndian then data[0] as int * 0x1_0000 + data[1] as int * 0x100 + data[2] as int
    else data[2] as int * 0x1_0000 + data[1] as int * 0x100 + data[0] as int
  }

  /** The three-byte branch as written: the little-endian case reads data[0] twice. */
  function Read24AsWritten(bigEndian: bool, data: seq<Byte>): (r: nat)
    requires |data| >= 3
    ensures r < 0x100_0000
    ensures !bigEndian ==> r % 0x100 == data[0] && r / 0x100 % 0x100 == data[0] && r / 0x1_0000 == data[2]
  {
    if bigEndian then data[0] as int * 0x1_0000 + data[1] as int * 0x100 + data[2] as int
    else data[2] as int * 0x1_0000 + data[0] as int * 0x100 + data[0] as int
  }

  /** be32toh / le32toh of the first four bytes. */
  function Read32(bigEndian: bool, data: seq<Byte>): nat
    requires |data| >= 4
  {
    if bigEndian then data[0] as int * 0x100_0000 + data[1] as int * 0x1_0000 + data[2] as int * 0x100 + data[3] as int
    else data[3] as int * 0x100_0000 + data[2] as int * 0x1_0000 + data[1] as int * 0x100 + data[0] as int
  }

  /**
   * nop_eval on a payload of `canBytes` bytes: one to four bytes read as an
   * unsigned number in the configured byte order, except that four bytes of
   * a float PID are the bits of the float. Any other width is an assertion
   * failure (None).
   */
  function NopEval(bigEndian: bool, canBytes: nat, pidType: PidDataType, data: seq<Byte>): (r: Option<NopValue>)
    requires |data| >= 4
    ensures r.Some? <==> 1 <= canBytes <= 4
    ensures r.Some? && r.value.FloatBits? <==> canBytes == 4 && pidType == Float
  {
    if canBytes == 1 then Some(Integer(data[0]))
    else if canBytes == 2 then Some(Integer(Read16(bigEndian, data)))
    else if canBytes == 3 then Some(Integer(Read24(bigEndian, data)))
    else if canBytes == 4 then
      if pidType != Float then Some(Integer(Read32(bigEndian, data)))
      else Some(FloatBits(Read32(bigEndian, data)))
    else None
  }

  /** The number nop_eval reads. */
  function NopNumber(v: NopValue): nat
  {
    match v
    case Integer(n) => n
    case FloatBits(bits) => bits
  }

  /** The unsigned values of one to four bytes, written out. */
  lemma ValuesOfOne(bs: seq<Byte>)
    requires |bs| == 1
    ensures BigEndianValue(bs) == bs[0] && LittleEndianValue(bs) == bs[0]
  {
    assert bs[..0] == [] && bs[1..] == [];
  }

  lemma ValuesOfTwo(bs: seq<Byte>)
    requires |bs| == 2
    ensures BigEndianValue(bs) == bs[0] as int * 0x100 + bs[1] as int
    ensures LittleEndianValue(bs) == bs[1] as int * 0x100 + bs[0] as int
  {
    ValuesOfOne(bs[..1]);
    ValuesOfOne(bs[1..]);
    assert bs[..1] == [bs[0]] && bs[1..] == [bs[1]];
  }

  lemma ValuesOfThree(bs: seq<Byte>)
    requires |bs| == 3
    ensures BigEndianValue(bs) == bs[0] as int * 0x1_0000 + bs[1] as int * 0x100 + bs[2] as int
    ensures LittleEndianValue(bs) == bs[2] as int * 0x1_0000 + bs[1] as int * 0x100 + bs[0] as int
  {
    ValuesOfTwo(bs[..2]);
    ValuesOfTwo(bs[1..]);
    assert bs[..2] == [bs[0], bs[1]] && bs[1..] == [bs[1], bs[2]];
  }

  lemma ValuesOfFour(bs: seq<Byte>)
    requires |bs| == 4
    ensures BigEndianValue(bs)
            == bs[0] as int * 0x100_0000 + bs[1] as int * 0x1_0000 + bs[2] as int * 0x100 + bs[3] as int
    ensures LittleEndianValue(bs)
            == bs[3] as int * 0x100_0000 + bs[2] as int * 0x1_0000 + bs[1] as int * 0x100 + bs[0] as int
  {
    ValuesOfThree(bs[..3]);
    ValuesOfThree(bs[1..]);
    assert bs[..3] == [bs[0], bs[1], bs[2]] && bs[1..] == [bs[1], bs[2], bs[3]];
  }

  /** nop_eval reads the first `canBytes` bytes as an unsigned number in the configured order. */
  lemma NopEvalReadsUnsigned(bigEndian: bool, canBytes: nat, pidType: PidDataType, data: seq<Byte>)
    requires |data| >= 4 && 1 <= canBytes <= 4
    ensures NopNumber(NopEval(bigEndian, canBytes, pidType, data).value) == Unsigned(data[..canBytes], bigEndian)
  {
    var bs := data[..canBytes];
    if canBytes == 1 {
      ValuesOfOne(bs);
    } else if canBytes == 2 {
      ValuesOfTwo(bs);
    } else if canBytes == 3 {
      ValuesOfThree(bs);
    } else {
      ValuesOfFour(bs);
    }
  }

  /** The bytes of `n` in `width` bytes, in the configured order. */
  function Encode(n: nat, width: nat, bigEndian: bool): (bs: seq<Byte>)
    ensures |bs| == width
    decreases width
  {
    if width == 0 then []
    else if bigEndian then Encode(n / 0x100, width - 1, true) + [n % 0x100]
    else [n % 0x100] + Encode(n / 0x100, width - 1, false)
  }

  function Pow256(width: nat): (p: nat)
    ensures p >= 1
  {
    if width == 0 then 1 else 0x100 * Pow256(width - 1)
  }

  /** Reading back the bytes of a number that fits gives the number. */
  lemma {:induction false} UnsignedOfEncode(n: nat, width: nat, bigEndian: bool)
    requires n < Pow256(width)
    ensures Unsigned(Encode(n, width, bigEndian), bigEndian) == n
    decreases width
  {
    if width > 0 {
      assert n / 0x100 < Pow256(width - 1);
      UnsignedOfEncode(n / 0x100, width - 1, bigEndian);
      var bs := Encode(n, width, bigEndian);
      if bigEndian {
        assert bs[..|bs| - 1] == Encode(n / 0x100, width - 1, true);
      } else {
        assert bs[1..] == Encode(n / 0x100, width - 1, false);
      }
    }
  }

  /**
   * A value sent in `canBytes` bytes in the configured order is the value
   * nop_eval reads back.
   */
  lemma NopEvalRoundTrip(n: nat, canBytes: nat, bigEndian: bool, pidType: PidDataType, rest: seq<Byte>)
    requires 1 <= canBytes <= 4 && n < Pow256(canBytes) && canBytes + |rest| >= 4
    ensures NopNumber(NopEval(bigEndian, canBytes, pidType, Encode(n, canBytes, bigEndian) + rest).value) == n
  {
    var data := Encode(n, canBytes, bigEndian) + rest;
    NopEvalReadsUnsigned(bigEndian, canBytes, pidType, data);
    assert data[..canBytes] == Encode(n, canBytes, bigEndian);
    UnsignedOfEncode(n, canBytes, bigEndian);
  }

  /**
   * The three-byte little-endian branch as written reads the right number
   * exactly when data[0] equals data[1]: [1, 2, 3] reads as 0x030101 where
   * 0x030201 was sent.
   */
  lemma Read24AsWrittenWrong(data: seq<Byte>)
    requires |data| >= 3
    ensures Read24AsWritten(false, data) == LittleEndianValue(data[..3]) <==> data[0] == data[1]
    ensures Read24AsWritten(true, data) == BigEndianValue(data[..3])
  {
    ValuesOfThree(data[..3]);
  }

  /** The counterexample of Read24AsWrittenWrong, against the corrected reading. */
  lemma Read24AsWrittenExample()
    ensures Read24AsWritten(false, [1, 2, 3]) == 0x030101
    ensures Read24(false, [1, 2, 3]) == 0x030201 == LittleEndianValue([1, 2, 3])
  {
    assert [1, 2, 3][1..] == [2, 3] && [2, 3][1..] == [3] && [3][1..] == [];
  }

  /** nop_eval as written: its three-byte branch is Read24AsWritten. */
  function NopEvalAsWritten(bigEndian: bool, canBytes: nat, pidType: PidDataType, data: seq<Byte>): Option<NopValue>
    requires |data| >= 4
  {
    if canBytes == 3 then Some(Integer(Read24AsWritten(bigEndian, data)))
    else NopEval(bigEndian, canBytes, pidType, data)
  }

  /**
   * nop_eval as written agrees with the corrected reading everywhere but on
   * three little-endian bytes, where it agrees exactly when data[0] equals
   * data[1].
   */
  lemma NopEvalAsWrittenDiffers(bigEndian: bool, canBytes: nat, pidType: PidDataType, data: seq<Byte>)
    requires |data| >= 4
    ensures !(canBytes == 3 && !bigEndian) ==>
              NopEvalAsWritten(bigEndian, canBytes, pidType, data) == NopEval(bigEndian, canBytes, pidType, data)
    ensures canBytes == 3 && !bigEndian ==>
              (NopEvalAsWritten(bigEndian, canBytes, pidType, data) == NopEval(bigEndian, canBytes, pidType, data)
               <==> data[0] == data[1])
  {
  }
}
