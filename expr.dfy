/**
 * The infix expression compiler, src/expr.c: a hand-written lexer feeding
 * Dijkstra's shunting-yard algorithm over two bounded stacks, producing the
 * postfix token array of a `struct expr`.
 *
 * Each C routine is a method with the C control flow; beside it a function
 * states the same computation over sequences, and the methods are proved
 * equal to those functions. Properties of the translation are lemmas about
 * the functions. The C routines stop the process on a failed assertion;
 * here they return the matching `SyError` instead.
 *
 * The precedence rule is kept as the code has it: `+` and `-` move only
 * pending `*` and `/` to the output, so operators of equal precedence group
 * to the right (see `SubtractionGroupsRight`).
 */
module Expression {

  import opened Wrappers
  import opened LibC
  import opened Stacks

  /** pid_data_type, include/yobd-private/types.h. */
  datatype PidDataType = Uint8 | Uint16 | Int8 | Int16 | Float

  /** enum expr_op_token. */
  datatype OpKind = OpAdd | OpSub | OpMul | OpDiv

  /**
   * struct expr_token: the four data bytes A-D, an operator, a float literal
   * (kept as its text; strtof is not modelled) or an integer literal.
   */
  datatype ExprToken =
    | ExprA
    | ExprB
    | ExprC
    | ExprD
    | ExprOp(op: OpKind)
    | ExprFloat(literal: string)
    | ExprInt32(value: int)

  /**
   * struct expr: the postfix tokens and their count. The evaluation stack
   * the C struct also carries has capacity `size` and is allocated by the
   * evaluator here.
   */
  datatype Expr = Expr(size: nat, data: seq<ExprToken>)

  /** parse_token. */
  datatype ParseToken =
    | TokA
    | TokB
    | TokC
    | TokD
    | TokNumeric
    | TokLParen
    | TokRParen
    | TokAdd
    | TokSub
    | TokMul
    | TokDiv

  /** OP_STACK_SIZE and OUT_STACK_SIZE. */
  const OpStackSize: nat := 20
  const OutStackSize: nat := 50

  // ---------------------------------------------------------------------
  // Lexer (next_token)
  // ---------------------------------------------------------------------

  /** The single-character tokens of the switch in next_token. */
  function Classify(c: char): (r: Option<ParseToken>)
    ensures r.Some? ==> r.value != TokNumeric
  {
    match c
    case '(' => Some(TokLParen)
    case ')' => Some(TokRParen)
    case 'A' => Some(TokA)
    case 'B' => Some(TokB)
    case 'C' => Some(TokC)
    case 'D' => Some(TokD)
    case '+' => Some(TokAdd)
    case '-' => Some(TokSub)
    case '*' => Some(TokMul)
    case '/' => Some(TokDiv)
    case _ => None
  }

  /**
   * What next_token reports: the end of the string (`end` NULL), a token
   * spanning [start, end), or the assertion failure on a character that is
   * no token.
   */
  datatype Lexeme = End | Token(kind: ParseToken, start: nat, end: nat) | Unrecognized(at: nat)

  /** Where the digits, '.' and fraction digits of a number starting with the digit at `q` end. */
  function NumberEnd(s: string, q: nat): (e: nat)
    requires q < |s|
    ensures q < e <= |s|
  {
    var intEnd := DigitsEnd(s, q + 1, 10);
    if CharAt(s, intEnd) == '.' then DigitsEnd(s, intEnd + 1, 10) else intEnd
  }

  /** next_token applied at offset `pos` of `s`. */
  function Lex(s: string, pos: nat): (r: Lexeme)
    requires pos <= |s|
    ensures r.Token? ==> pos <= r.start < r.end <= |s|
    ensures r.Unrecognized? ==> pos <= r.at < |s|
  {
    LexAt(s, SkipSpaces(s, pos))
  }

  /** next_token once the white space is consumed: `p` is at a non-space character. */
  function LexAt(s: string, p: nat): (r: Lexeme)
    requires p <= |s|
    ensures r.Token? ==> p <= r.start < r.end <= |s|
    ensures r.Unrecognized? ==> p <= r.at < |s|
  {
    var signed := CharAt(s, p) == '-' && IsDigit(CharAt(s, p + 1));
    var q := if signed then p + 1 else p;
    if IsDigit(CharAt(s, q)) then Token(TokNumeric, p, NumberEnd(s, q))
    else if CharAt(s, q) == Nul then End
    else
      match Classify(s[q])
      case Some(k) => Token(k, q, q + 1)
      case None => Unrecognized(q)
  }

  /** The `while (isdigit(*pos))` tail of next_token's two do-while loops. */
  method ScanDigits(s: string, from: nat) returns (p: nat)
    requires from <= |s|
    ensures p == DigitsEnd(s, from, 10)
  {
    p := from;
    while IsDigit(CharAt(s, p))
      invariant from <= p <= |s|
      invariant DigitsEnd(s, p, 10) == DigitsEnd(s, from, 10)
      decreases |s| - p
    {
      p := p + 1;
    }
  }

  /** The rest of a number whose first digit is at `q`: the digits, then a '.' and the fraction digits. */
  method ScanNumber(s: string, q: nat) returns (e: nat)
    requires q < |s|
    ensures e == NumberEnd(s, q)
  {
    e := ScanDigits(s, q + 1);
    if CharAt(s, e) == '.' {
      e := ScanDigits(s, e + 1);
    }
  }

  /** next_token, over an offset instead of a pointer. */
  method NextToken(s: string, pos: nat) returns (r: Lexeme)
    requires pos <= |s|
    ensures r == Lex(s, pos)
  {
    var p := ConsumeSpaces(s, pos);
    r := TokenAt(s, p);
  }

  /** The white-space loop at the head of next_token. */
  method ConsumeSpaces(s: string, pos: nat) returns (p: nat)
    requires pos <= |s|
    ensures p == SkipSpaces(s, pos)
  {
    p := pos;
    while IsSpace(CharAt(s, p))
      invariant pos <= p <= |s|
      invariant SkipSpaces(s, p) == SkipSpaces(s, pos)
      decreases |s| - p
    {
      p := p + 1;
    }
  }

  /** The rest of next_token, from the first non-space character. */
  method TokenAt(s: string, p0: nat) returns (r: Lexeme)
    requires p0 <= |s|
    ensures r == LexAt(s, p0)
  {
    var p := p0;
    var start: Option<nat> := None;
    if CharAt(s, p) == '-' && CharAt(s, p + 1) != Nul && IsDigit(CharAt(s, p + 1)) {
      start := Some(p);
      p := p + 1;
    }
    if IsDigit(CharAt(s, p)) {
      if start.None? {
        start := Some(p);
      }
      p := ScanNumber(s, p);
      r := Token(TokNumeric, start.value, p);
    } else if CharAt(s, p) == Nul {
      r := End;
    } else {
      var k := Classify(s[p]);
      if k.None? {
        r := Unrecognized(p);
      } else {
        r := Token(k.value, p, p + 1);
      }
    }
  }

  // ---------------------------------------------------------------------
  // Shunting yard over sequences
  // ---------------------------------------------------------------------

  /** Why the translation stops: each is an assertion in the C code. */
  datatype SyError =
    | UnrecognizedChar(at: nat)   // next_token's default case
    | LiteralOutOfRange           // errno set by strtol
    | OpStackFull                 // push onto a full operator stack
    | OutStackFull                // push onto a full output stack
    | UnmatchedRParen             // peek on an empty stack while closing a ')'
    | NotAnOperator(tok: ParseToken) // op_to_expr's default case
    | EmptyOutput                 // the final size check

  /** The capacities of the two stacks. */
  datatype Caps = Caps(ops: nat, out: nat)

  /** The contents of the operator and output stacks, bottom first. */
  datatype Sy = Sy(ops: seq<ParseToken>, out: seq<ExprToken>)

  /** op_to_expr; None is its assertion failure. */
  function OpToExpr(tok: ParseToken): (r: Option<ExprToken>)
    ensures r.Some? <==> tok in {TokAdd, TokSub, TokMul, TokDiv}
    ensures r.Some? ==> r.value.ExprOp?
  {
    match tok
    case TokAdd => Some(ExprOp(OpAdd))
    case TokSub => Some(ExprOp(OpSub))
    case TokMul => Some(ExprOp(OpMul))
    case TokDiv => Some(ExprOp(OpDiv))
    case _ => None
  }

  function PushOut(st: Sy, t: ExprToken, caps: Caps): Result<Sy, SyError>
  {
    if |st.out| < caps.out then Success(st.(out := st.out + [t])) else Failure(OutStackFull)
  }

  function PushOp(st: Sy, t: ParseToken, caps: Caps): Result<Sy, SyError>
  {
    if |st.ops| < caps.ops then Success(st.(ops := st.ops + [t])) else Failure(OpStackFull)
  }

  /**
   * The output stack only grows, and whenever it grows it stays within its
   * capacity.
   */
  predicate OutGrows(before: seq<ExprToken>, after: seq<ExprToken>, cap: nat)
  {
    before <= after && (|after| > |before| ==> |after| <= cap)
  }

  /** Pop the top operator, translate it and push it onto the output. */
  function MoveTop(st: Sy, caps: Caps): (r: Result<Sy, SyError>)
    requires st.ops != []
    ensures r.Success? ==> OutGrows(st.out, r.value.out, caps.out) && |r.value.out| == |st.out| + 1
    ensures r.Success? ==> r.value.ops == st.ops[..|st.ops| - 1]
  {
    var top := st.ops[|st.ops| - 1];
    match OpToExpr(top)
    case None => Failure(NotAnOperator(top))
    case Some(t) => PushOut(Sy(st.ops[..|st.ops| - 1], st.out), t, caps)
  }

  predicate IsMulDiv(t: ParseToken)
  {
    t == TokMul || t == TokDiv
  }

  /** The loop of handle_op: move the `*` and `/` on top of the operator stack. */
  function PopPending(st: Sy, caps: Caps): (r: Result<Sy, SyError>)
    ensures r.Success? ==> OutGrows(st.out, r.value.out, caps.out) && r.value.ops <= st.ops
    decreases |st.ops|
  {
    if st.ops != [] && IsMulDiv(st.ops[|st.ops| - 1]) then
      var st1 :- MoveTop(st, caps);
      PopPending(st1, caps)
    else
      Success(st)
  }

  /** handle_op. */
  function HandleOpSpec(st: Sy, tok: ParseToken, caps: Caps): (r: Result<Sy, SyError>)
    ensures r.Success? ==> OutGrows(st.out, r.value.out, caps.out)
    ensures r.Success? ==> |r.value.ops| > 0 && r.value.ops[|r.value.ops| - 1] == tok
                           && r.value.ops[..|r.value.ops| - 1] <= st.ops
  {
    var st1 :- PopPending(st, caps);
    PushOp(st1, tok, caps)
  }

  /** The ')' case: move operators up to the matching '(' and drop it. */
  function CloseParenSpec(st: Sy, caps: Caps): (r: Result<Sy, SyError>)
    ensures r.Success? ==> OutGrows(st.out, r.value.out, caps.out) && |r.value.ops| < |st.ops|
    decreases |st.ops|
  {
    if st.ops == [] then Failure(UnmatchedRParen)
    else if st.ops[|st.ops| - 1] == TokLParen then Success(st.(ops := st.ops[..|st.ops| - 1]))
    else
      var st1 :- MoveTop(st, caps);
      CloseParenSpec(st1, caps)
  }

  /** The final loop: move every remaining operator to the output. */
  function DrainSpec(st: Sy, caps: Caps): (r: Result<Sy, SyError>)
    ensures r.Success? ==> OutGrows(st.out, r.value.out, caps.out) && r.value.ops == []
    decreases |st.ops|
  {
    if st.ops == [] then Success(st)
    else
      var st1 :- MoveTop(st, caps);
      DrainSpec(st1, caps)
  }

  /**
   * The token an operand pushes: a data byte, or a literal read from its
   * first character, with strtol in base 10 for the integer types (errno
   * must stay 0) and as text for float.
   */
  function Operand(s: string, kind: ParseToken, start: nat, end: nat, ty: PidDataType): Result<ExprToken, SyError>
    requires start <= end <= |s|
  {
    match kind
    case TokA => Success(ExprA)
    case TokB => Success(ExprB)
    case TokC => Success(ExprC)
    case TokD => Success(ExprD)
    case _ =>
      if ty == Float then Success(ExprFloat(s[start..end]))
      else match StrToL(s[start..], Base10)
        case None => Failure(LiteralOutOfRange)
        case Some(v) => Success(ExprInt32(v))
  }

  predicate IsOperandToken(k: ParseToken)
  {
    k in {TokA, TokB, TokC, TokD, TokNumeric}
  }

  /** One pass of the switch in shunting_yard's loop. */
  function Step(s: string, kind: ParseToken, start: nat, end: nat, st: Sy, ty: PidDataType, caps: Caps): (r: Result<Sy, SyError>)
    requires start <= end <= |s|
    ensures r.Success? ==> OutGrows(st.out, r.value.out, caps.out)
  {
    if IsOperandToken(kind) then
      var t :- Operand(s, kind, start, end, ty);
      PushOut(st, t, caps)
    else if kind == TokAdd || kind == TokSub then HandleOpSpec(st, kind, caps)
    else if kind == TokRParen then CloseParenSpec(st, caps)
    else PushOp(st, kind, caps)
  }

  /** shunting_yard's main loop from offset `pos` on. */
  function Run(s: string, pos: nat, st: Sy, ty: PidDataType, caps: Caps): (r: Result<Sy, SyError>)
    requires pos <= |s|
    ensures r.Success? ==> OutGrows(st.out, r.value.out, caps.out)
    decreases |s| - pos
  {
    match Lex(s, pos)
    case End => Success(st)
    case Unrecognized(at) => Failure(UnrecognizedChar(at))
    case Token(kind, start, end) =>
      var st1 :- Step(s, kind, start, end, st, ty, caps);
      Run(s, end, st1, ty, caps)
  }

  /** shunting_yard: the postfix output, bottom of the output stack first. */
  function Translate(s: string, ty: PidDataType, caps: Caps): (r: Result<seq<ExprToken>, SyError>)
    ensures r.Success? ==> 1 <= |r.value| <= caps.out
  {
    var st :- Run(s, 0, Sy([], []), ty, caps);
    var fin :- DrainSpec(st, caps);
    if fin.out == [] then Failure(EmptyOutput) else Success(fin.out)
  }

  // ---------------------------------------------------------------------
  // Shunting yard over the two stacks
  // ---------------------------------------------------------------------

  ghost function Current(opStack: Stack<ParseToken>, outStack: Stack<ExprToken>): Sy
    reads opStack, opStack.buf, outStack, outStack.buf
    requires opStack.Valid() && outStack.Valid()
  {
    Sy(opStack.Contents(), outStack.Contents())
  }

  function CapsOf(opStack: Stack<ParseToken>, outStack: Stack<ExprToken>): Caps
    reads opStack, outStack
  {
    Caps(opStack.maxSize, outStack.maxSize)
  }

  /** The two stacks now hold what `r` says, or the method failed as `r` says. */
  ghost predicate Matches(r: Result<Sy, SyError>, o: Outcome<SyError>, opStack: Stack<ParseToken>, outStack: Stack<ExprToken>)
    reads opStack, opStack.buf, outStack, outStack.buf
    requires opStack.Valid() && outStack.Valid()
  {
    match r
    case Success(st) => o.Pass? && Current(opStack, outStack) == st
    case Failure(e) => o == Fail(e)
  }

  /** Push onto the output stack, failing as its assertion would when full. */
  method PushOutChecked(outStack: Stack<ExprToken>, t: ExprToken) returns (o: Outcome<SyError>)
    requires outStack.Valid()
    modifies outStack, outStack.buf
    ensures outStack.Valid()
    ensures o.Pass? ==> outStack.Contents() == old(outStack.Contents()) + [t]
    ensures o.Fail? ==> o.error == OutStackFull && old(outStack.Size()) == outStack.maxSize
    ensures o.Pass? <==> old(outStack.Size()) < outStack.maxSize
  {
    if outStack.Size() >= outStack.MaxSize() {
      return Fail(OutStackFull);
    }
    outStack.Push(t);
    return Pass;
  }

  /** Push onto the operator stack, failing as its assertion would when full. */
  method PushOpChecked(opStack: Stack<ParseToken>, t: ParseToken) returns (o: Outcome<SyError>)
    requires opStack.Valid()
    modifies opStack, opStack.buf
    ensures opStack.Valid()
    ensures o.Pass? ==> opStack.Contents() == old(opStack.Contents()) + [t]
    ensures o.Fail? ==> o.error == OpStackFull && old(opStack.Size()) == opStack.maxSize
    ensures o.Pass? <==> old(opStack.Size()) < opStack.maxSize
  {
    if opStack.Size() >= opStack.MaxSize() {
      return Fail(OpStackFull);
    }
    opStack.Push(t);
    return Pass;
  }

  /** Pop the top operator, translate it with op_to_expr and push it onto the output. */
  method MoveTopM(opStack: Stack<ParseToken>, outStack: Stack<ExprToken>) returns (o: Outcome<SyError>)
    requires opStack.Valid() && outStack.Valid() && opStack.Size() > 0
    modifies opStack, outStack, outStack.buf
    ensures opStack.Valid() && outStack.Valid()
    ensures Matches(MoveTop(old(Current(opStack, outStack)), CapsOf(opStack, outStack)), o, opStack, outStack)
  {
    var top := opStack.Pop();
    var t := OpToExpr(top);
    if t.None? {
      return Fail(NotAnOperator(top));
    }
    o := PushOutChecked(outStack, t.value);
  }

  /** handle_op. */
  method HandleOp(tok: ParseToken, opStack: Stack<ParseToken>, outStack: Stack<ExprToken>) returns (o: Outcome<SyError>)
    requires opStack.Valid() && outStack.Valid()
    modifies opStack, opStack.buf, outStack, outStack.buf
    ensures opStack.Valid() && outStack.Valid()
    ensures Matches(HandleOpSpec(old(Current(opStack, outStack)), tok, CapsOf(opStack, outStack)), o, opStack, outStack)
  {
    ghost var caps := CapsOf(opStack, outStack);
    ghost var goal := HandleOpSpec(Current(opStack, outStack), tok, caps);
    while true
      invariant opStack.Valid() && outStack.Valid()
      invariant CapsOf(opStack, outStack) == caps
      invariant HandleOpSpec(Current(opStack, outStack), tok, caps) == goal
      decreases opStack.Size()
    {
      var ret, top := opStack.Peek(tok);
      if ret == -1 || (top != TokMul && top != TokDiv) {
        break;
      }
      o := MoveTopM(opStack, outStack);
      if o.Fail? {
        return;
      }
    }
    o := PushOpChecked(opStack, tok);
  }

  /** The ')' case of shunting_yard. */
  method CloseParen(opStack: Stack<ParseToken>, outStack: Stack<ExprToken>) returns (o: Outcome<SyError>)
    requires opStack.Valid() && outStack.Valid()
    modifies opStack, opStack.buf, outStack, outStack.buf
    ensures opStack.Valid() && outStack.Valid()
    ensures Matches(CloseParenSpec(old(Current(opStack, outStack)), CapsOf(opStack, outStack)), o, opStack, outStack)
  {
    ghost var caps := CapsOf(opStack, outStack);
    ghost var goal := CloseParenSpec(Current(opStack, outStack), caps);
    var tok := TokRParen;
    while true
      invariant opStack.Valid() && outStack.Valid()
      invariant CapsOf(opStack, outStack) == caps
      invariant CloseParenSpec(Current(opStack, outStack), caps) == goal
      decreases opStack.Size()
    {
      var ret;
      ret, tok := opStack.Peek(tok);
      if ret == -1 {
        return Fail(UnmatchedRParen);
      }
      if tok == TokLParen {
        break;
      }
      o := MoveTopM(opStack, outStack);
      if o.Fail? {
        return;
      }
    }
    var _ := opStack.Pop();
    o := Pass;
  }

  /** The final loop of shunting_yard. */
  method Drain(opStack: Stack<ParseToken>, outStack: Stack<ExprToken>) returns (o: Outcome<SyError>)
    requires opStack.Valid() && outStack.Valid()
    modifies opStack, opStack.buf, outStack, outStack.buf
    ensures opStack.Valid() && outStack.Valid()
    ensures Matches(DrainSpec(old(Current(opStack, outStack)), CapsOf(opStack, outStack)), o, opStack, outStack)
  {
    ghost var caps := CapsOf(opStack, outStack);
    ghost var goal := DrainSpec(Current(opStack, outStack), caps);
    while opStack.Size() > 0
      invariant opStack.Valid() && outStack.Valid()
      invariant CapsOf(opStack, outStack) == caps
      invariant DrainSpec(Current(opStack, outStack), caps) == goal
      decreases opStack.Size()
    {
      o := MoveTopM(opStack, outStack);
      if o.Fail? {
        return;
      }
    }
    o := Pass;
  }

  /** One pass of the switch in shunting_yard's loop. */
  method StepM(s: string, kind: ParseToken, start: nat, end: nat, ty: PidDataType,
               opStack: Stack<ParseToken>, outStack: Stack<ExprToken>) returns (o: Outcome<SyError>)
    requires start <= end <= |s|
    requires opStack.Valid() && outStack.Valid()
    modifies opStack, opStack.buf, outStack, outStack.buf
    ensures opStack.Valid() && outStack.Valid()
    ensures Matches(Step(s, kind, start, end, old(Current(opStack, outStack)), ty, CapsOf(opStack, outStack)), o, opStack, outStack)
  {
    match kind {
      case TokNumeric =>
        if ty == Float {
          o := PushOutChecked(outStack, ExprFloat(s[start..end]));
        } else {
          var v := StrToL(s[start..], Base10);
          if v.None? {
            return Fail(LiteralOutOfRange);
          }
          o := PushOutChecked(outStack, ExprInt32(v.value));
        }
      case TokA =>
        o := PushOutChecked(outStack, ExprA);
      case TokB =>
        o := PushOutChecked(outStack, ExprB);
      case TokC =>
        o := PushOutChecked(outStack, ExprC);
      case TokD =>
        o := PushOutChecked(outStack, ExprD);
      case TokAdd =>
        o := HandleOp(kind, opStack, outStack);
      case TokSub =>
        o := HandleOp(kind, opStack, outStack);
      case TokMul =>
        o := PushOpChecked(opStack, kind);
      case TokDiv =>
        o := PushOpChecked(opStack, kind);
      case TokLParen =>
        o := PushOpChecked(opStack, kind);
      case TokRParen =>
        o := CloseParen(opStack, outStack);
    }
  }

  /**
   * shunting_yard over two empty stacks: on success the output stack holds
   * the translation of `s`, otherwise the failure is the translation's.
   */
  method ShuntingYard(s: string, ty: PidDataType, opStack: Stack<ParseToken>, outStack: Stack<ExprToken>)
    returns (o: Outcome<SyError>)
    requires opStack.Valid() && outStack.Valid()
    requires opStack.Size() == 0 && outStack.Size() == 0
    modifies opStack, opStack.buf, outStack, outStack.buf
    ensures opStack.Valid() && outStack.Valid()
    ensures match Translate(s, ty, CapsOf(opStack, outStack))
            case Success(out) => o.Pass? && outStack.Contents() == out
            case Failure(e) => o == Fail(e)
  {
    ghost var caps := CapsOf(opStack, outStack);
    assert Current(opStack, outStack) == Sy([], []);
    ghost var goal := Run(s, 0, Sy([], []), ty, caps);
    var pos := 0;
    while true
      invariant pos <= |s|
      invariant opStack.Valid() && outStack.Valid()
      invariant CapsOf(opStack, outStack) == caps
      invariant Run(s, pos, Current(opStack, outStack), ty, caps) == goal
      decreases |s| - pos
    {
      var lx := NextToken(s, pos);
      if lx.End? {
        break;
      }
      if lx.Unrecognized? {
        return Fail(UnrecognizedChar(lx.at));
      }
      pos := lx.end;
      o := StepM(s, lx.kind, lx.start, lx.end, ty, opStack, outStack);
      if o.Fail? {
        return;
      }
    }
    o := Drain(opStack, outStack);
    if o.Fail? {
      return;
    }
    if outStack.Size() == 0 {
      return Fail(EmptyOutput);
    }
  }

  /**
   * parse_expr: translate `s` with an operator stack of 20 and an output
   * stack of 50 entries and copy the output, bottom first, into the
   * expression. The C function returns YOBD_OOM when malloc fails; that is
   * not modelled, and its assertion failures are the Failure results.
   */
  method ParseExpr(s: string, ty: PidDataType) returns (r: Result<Expr, SyError>)
    ensures match Translate(s, ty, Caps(OpStackSize, OutStackSize))
            case Success(out) => r == Success(Expr(|out|, out))
            case Failure(e) => r == Failure(e)
    ensures r.Success? ==> 0 < r.value.size == |r.value.data| <= OutStackSize
  {
    var opData := new ParseToken[OpStackSize];
    var opStack := new Stack.Init(opData, OpStackSize);
    var outData := new ExprToken[OutStackSize];
    var outStack := new Stack.Init(outData, OutStackSize);
    var o := ShuntingYard(s, ty, opStack, outStack);
    if o.Fail? {
      return Failure(o.error);
    }
    var size := outStack.Size();
    var data := outStack.Data()[..size];
    r := Success(Expr(size, data));
  }

  // ---------------------------------------------------------------------
  // Properties of the lexer
  // ---------------------------------------------------------------------

  /**
   * next_token skips white space first: every token and every unrecognized
   * character starts at the first non-space character, and the end of the
   * string is reported exactly when that character is the NUL.
   */
  lemma LexSkipsSpaces(s: string, pos: nat)
    requires pos <= |s|
    ensures var r := Lex(s, pos);
      (r.Token? ==> (forall i :: pos <= i < r.start ==> IsSpace(s[i])) && !IsSpace(s[r.start]))
      && (r.Unrecognized? ==> (forall i :: pos <= i < r.at ==> IsSpace(s[i])) && !IsSpace(s[r.at]))
      && (r.End? <==> CharAt(s, SkipSpaces(s, pos)) == Nul)
  {
  }

  /**
   * A '-' directly followed by a digit starts a numeric literal; any other
   * '-' is the subtraction operator.
   */
  lemma MinusBeforeDigitStartsLiteral(s: string, pos: nat)
    requires pos <= |s|
    ensures var p := SkipSpaces(s, pos);
      CharAt(s, p) == '-' ==>
        (IsDigit(CharAt(s, p + 1)) ==> Lex(s, pos).Token? && Lex(s, pos).kind == TokNumeric && Lex(s, pos).start == p)
        && (!IsDigit(CharAt(s, p + 1)) ==> Lex(s, pos) == Token(TokSub, p, p + 1))
  {
  }

  /** Digits, then at most one '.' followed by more digits. */
  predicate IsUnsignedNumberText(b: string)
  {
    |b| > 0 && IsDigit(b[0])
    && (forall i :: 0 <= i < |b| ==> IsDigit(b[i]) || b[i] == '.')
    && (forall i, j :: 0 <= i < j < |b| && b[i] == '.' ==> b[j] != '.')
  }

  /** The text of a numeric literal: an unsigned number, possibly after a '-'. */
  predicate IsNumberText(t: string)
  {
    IsUnsignedNumberText(t) || (|t| > 0 && t[0] == '-' && IsUnsignedNumberText(t[1..]))
  }

  lemma NumberEndShape(s: string, q: nat)
    requires q < |s| && IsDigit(s[q])
    ensures IsUnsignedNumberText(s[q..NumberEnd(s, q)])
    ensures !IsDigit(CharAt(s, NumberEnd(s, q)))
    ensures CharAt(s, NumberEnd(s, q)) == '.' ==> '.' in s[q..NumberEnd(s, q)]
  {
    var intEnd := DigitsEnd(s, q + 1, 10);
    var e := NumberEnd(s, q);
    var b := s[q..e];
    if CharAt(s, intEnd) == '.' {
      assert b[intEnd - q] == '.';
      assert forall i :: 0 <= i < |b| && i != intEnd - q ==> IsDigit(b[i]);
    } else {
      assert forall i :: 0 <= i < |b| ==> IsDigit(b[i]);
    }
  }

  /**
   * A numeric token is a maximal number: its text has the shape above, no
   * digit follows it, and a '.' follows it only when it already has one.
   */
  lemma NumericTokenIsMaximal(s: string, pos: nat)
    requires pos <= |s|
    ensures var r := Lex(s, pos);
      r.Token? && r.kind == TokNumeric ==>
        IsNumberText(s[r.start..r.end])
        && !IsDigit(CharAt(s, r.end))
        && (CharAt(s, r.end) == '.' ==> '.' in s[r.start..r.end])
  {
    var p := SkipSpaces(s, pos);
    if CharAt(s, p) == '-' && IsDigit(CharAt(s, p + 1)) {
      SignedNumberShape(s, p);
    } else if IsDigit(CharAt(s, p)) {
      NumberEndShape(s, p);
    }
  }

  /** A '-' followed by a number: the text up to the number's end is a signed number. */
  lemma SignedNumberShape(s: string, p: nat)
    requires p + 1 < |s| && s[p] == '-' && IsDigit(s[p + 1])
    ensures IsNumberText(s[p..NumberEnd(s, p + 1)])
    ensures !IsDigit(CharAt(s, NumberEnd(s, p + 1)))
    ensures CharAt(s, NumberEnd(s, p + 1)) == '.' ==> '.' in s[p..NumberEnd(s, p + 1)]
  {
    var e := NumberEnd(s, p + 1);
    NumberEndShape(s, p + 1);
    assert s[p..e][1..] == s[p + 1..e];
    assert '.' in s[p + 1..e] ==> '.' in s[p..e];
  }

  /**
   * Every other token is one character among ( ) A B C D + - * /, and a
   * character outside that set (and not a digit, space or NUL) is the
   * assertion failure.
   */
  lemma SingleCharacterTokens(s: string, pos: nat)
    requires pos <= |s|
    ensures var r := Lex(s, pos);
      (r.Token? && r.kind != TokNumeric ==> r.end == r.start + 1 && Classify(s[r.start]) == Some(r.kind))
      && (r.Unrecognized? ==> Classify(s[r.at]).None? && !IsDigit(s[r.at]) && !IsSpace(s[r.at]) && s[r.at] != Nul)
  {
  }

  // ---------------------------------------------------------------------
  // Properties of the shunting yard
  // ---------------------------------------------------------------------

  /** Every entry of the operator stack is an operator or '('. */
  predicate WellFormedOps(ops: seq<ParseToken>)
  {
    forall i :: 0 <= i < |ops| ==> ops[i] == TokLParen || OpToExpr(ops[i]).Some?
  }

  /** The output produced by popping the operators `ops`, top first. */
  function Emit(ops: seq<ParseToken>): (r: seq<ExprToken>)
    requires forall i :: 0 <= i < |ops| ==> OpToExpr(ops[i]).Some?
    ensures |r| == |ops|
    ensures forall i :: 0 <= i < |r| ==> r[i] == OpToExpr(ops[|ops| - 1 - i]).value
  {
    if ops == [] then [] else [OpToExpr(ops[|ops| - 1]).value] + Emit(ops[..|ops| - 1])
  }

  /** Where the run of `*` and `/` at the top of the operator stack begins. */
  function PendingFrom(ops: seq<ParseToken>): (k: nat)
    ensures k <= |ops|
    ensures forall i :: k <= i < |ops| ==> IsMulDiv(ops[i])
    ensures k == 0 || !IsMulDiv(ops[k - 1])
  {
    if ops != [] && IsMulDiv(ops[|ops| - 1]) then PendingFrom(ops[..|ops| - 1]) else |ops|
  }

  /** Popping the top operator onto the output is the first output token of Emit. */
  lemma EmitTop(ops: seq<ParseToken>, k: nat)
    requires k < |ops|
    requires forall i :: k <= i < |ops| ==> OpToExpr(ops[i]).Some?
    ensures Emit(ops[k..]) == [OpToExpr(ops[|ops| - 1]).value] + Emit(ops[k..|ops| - 1])
  {
    assert ops[k..][..|ops| - 1 - k] == ops[k..|ops| - 1];
  }

  /** The output after one more pop, written as Emit of the operators above `k`. */
  lemma EmitAfterPop(ops: seq<ParseToken>, k: nat, out: seq<ExprToken>)
    requires k < |ops|
    requires forall i :: k <= i < |ops| ==> OpToExpr(ops[i]).Some?
    ensures out + [OpToExpr(ops[|ops| - 1]).value] + Emit(ops[..|ops| - 1][k..]) == out + Emit(ops[k..])
  {
    assert ops[..|ops| - 1][k..] == ops[k..|ops| - 1];
    EmitTop(ops, k);
  }

  lemma PopPendingUnfold(st: Sy, caps: Caps)
    requires st.ops != [] && IsMulDiv(st.ops[|st.ops| - 1])
    ensures |st.out| < caps.out ==>
      PopPending(st, caps) == PopPending(Sy(st.ops[..|st.ops| - 1], st.out + [OpToExpr(st.ops[|st.ops| - 1]).value]), caps)
    ensures |st.out| >= caps.out ==> PopPending(st, caps) == Failure(OutStackFull)
  {
  }

  /** The loop of handle_op fails exactly when the output stack cannot take the pending operators. */
  lemma {:induction false} PopPendingSucceeds(st: Sy, caps: Caps)
    requires |st.out| <= caps.out
    ensures PopPending(st, caps).Success? <==> |st.out| + (|st.ops| - PendingFrom(st.ops)) <= caps.out
    decreases |st.ops|
  {
    var n := |st.ops|;
    if st.ops != [] && IsMulDiv(st.ops[n - 1]) {
      var rest := st.ops[..n - 1];
      assert PendingFrom(st.ops) == PendingFrom(rest);
      PopPendingUnfold(st, caps);
      if |st.out| < caps.out {
        PopPendingSucceeds(Sy(rest, st.out + [OpToExpr(st.ops[n - 1]).value]), caps);
      }
    }
  }

  /** The loop of handle_op moves the pending `*` and `/`, top first, and nothing else. */
  lemma {:induction false} PopPendingResult(st: Sy, caps: Caps)
    ensures PopPending(st, caps).Success? ==>
      var k := PendingFrom(st.ops);
      PopPending(st, caps).value == Sy(st.ops[..k], st.out + Emit(st.ops[k..]))
    decreases |st.ops|
  {
    var n := |st.ops|;
    if st.ops != [] && IsMulDiv(st.ops[n - 1]) {
      var rest := st.ops[..n - 1];
      var k := PendingFrom(rest);
      assert PendingFrom(st.ops) == k;
      PopPendingUnfold(st, caps);
      if |st.out| < caps.out {
        var e := OpToExpr(st.ops[n - 1]).value;
        var st1 := Sy(rest, st.out + [e]);
        PopPendingResult(st1, caps);
        assert rest[..k] == st.ops[..k];
        EmitAfterPop(st.ops, k, st.out);
      }
    } else {
      assert st.ops[..n] == st.ops;
      assert st.ops[n..] == [];
    }
  }

  /**
   * handle_op moves exactly the run of `*` and `/` at the top of the
   * operator stack to the output, top first, and then pushes the new
   * operator; it fails exactly when one of the stacks would overflow.
   */
  lemma HandleOpPopsOnlyMulDiv(st: Sy, tok: ParseToken, caps: Caps)
    requires |st.out| <= caps.out
    ensures var k := PendingFrom(st.ops);
      (HandleOpSpec(st, tok, caps).Success? <==> |st.out| + (|st.ops| - k) <= caps.out && k < caps.ops)
      && (HandleOpSpec(st, tok, caps).Success? ==>
            HandleOpSpec(st, tok, caps).value == Sy(st.ops[..k] + [tok], st.out + Emit(st.ops[k..])))
  {
    PopPendingSucceeds(st, caps);
    PopPendingResult(st, caps);
  }

  /** `*`, `/` and `(` are pushed without moving anything to the output. */
  lemma MulDivParenOnlyPush(s: string, kind: ParseToken, start: nat, end: nat, st: Sy, ty: PidDataType, caps: Caps)
    requires start <= end <= |s|
    requires kind in {TokMul, TokDiv, TokLParen}
    ensures Step(s, kind, start, end, st, ty, caps).Success? <==> |st.ops| < caps.ops
    ensures Step(s, kind, start, end, st, ty, caps).Success? ==>
              Step(s, kind, start, end, st, ty, caps).value == Sy(st.ops + [kind], st.out)
  {
  }

  /** The index of the topmost '(' on the operator stack, or -1. */
  function LastLParen(ops: seq<ParseToken>): (j: int)
    ensures -1 <= j < |ops|
    ensures j >= 0 ==> ops[j] == TokLParen
    ensures forall i :: j < i < |ops| ==> ops[i] != TokLParen
    ensures j == -1 <==> TokLParen !in ops
  {
    if ops == [] then -1
    else if ops[|ops| - 1] == TokLParen then |ops| - 1
    else LastLParen(ops[..|ops| - 1])
  }

  lemma CloseParenUnfold(st: Sy, caps: Caps)
    requires st.ops != [] && st.ops[|st.ops| - 1] != TokLParen
    requires OpToExpr(st.ops[|st.ops| - 1]).Some?
    ensures |st.out| < caps.out ==>
      CloseParenSpec(st, caps) == CloseParenSpec(Sy(st.ops[..|st.ops| - 1], st.out + [OpToExpr(st.ops[|st.ops| - 1]).value]), caps)
    ensures |st.out| >= caps.out ==> CloseParenSpec(st, caps) == Failure(OutStackFull)
  {
  }

  /**
   * Closing a bracket fails when there is no '(' on the operator stack and
   * otherwise exactly when the output cannot take the operators above it.
   */
  lemma {:induction false} CloseParenSucceeds(st: Sy, caps: Caps)
    requires WellFormedOps(st.ops) && |st.out| <= caps.out
    ensures TokLParen !in st.ops ==> CloseParenSpec(st, caps).Failure?
    ensures TokLParen !in st.ops && |st.out| + |st.ops| <= caps.out ==> CloseParenSpec(st, caps) == Failure(UnmatchedRParen)
    ensures TokLParen in st.ops ==>
      (CloseParenSpec(st, caps).Success? <==> |st.out| + (|st.ops| - 1 - LastLParen(st.ops)) <= caps.out)
    decreases |st.ops|
  {
    var n := |st.ops|;
    if n > 0 && st.ops[n - 1] != TokLParen {
      var rest := st.ops[..n - 1];
      assert WellFormedOps(rest);
      assert TokLParen in st.ops <==> TokLParen in rest;
      assert LastLParen(st.ops) == LastLParen(rest);
      CloseParenUnfold(st, caps);
      if |st.out| < caps.out {
        CloseParenSucceeds(Sy(rest, st.out + [OpToExpr(st.ops[n - 1]).value]), caps);
      }
    }
  }

  /** Closing a bracket moves the operators above the topmost '(', top first, and drops the '('. */
  lemma {:induction false} CloseParenResult(st: Sy, caps: Caps)
    requires WellFormedOps(st.ops)
    ensures CloseParenSpec(st, caps).Success? ==>
      var j := LastLParen(st.ops);
      j >= 0 && CloseParenSpec(st, caps).value == Sy(st.ops[..j], st.out + Emit(st.ops[j + 1..]))
    decreases |st.ops|
  {
    var n := |st.ops|;
    if n > 0 && st.ops[n - 1] != TokLParen {
      CloseParenUnfold(st, caps);
      if |st.out| < caps.out {
        var rest := st.ops[..n - 1];
        assert WellFormedOps(rest);
        CloseParenResult(Sy(rest, st.out + [OpToExpr(st.ops[n - 1]).value]), caps);
        CloseParenPop(st, caps);
      }
    } else if n > 0 {
      assert st.ops[n..] == [];
    }
  }

  /** What CloseParenResult states about one state. */
  predicate CloseParenMoves(st: Sy, caps: Caps)
    requires WellFormedOps(st.ops)
  {
    CloseParenSpec(st, caps).Success? ==>
      var j := LastLParen(st.ops);
      j >= 0 && CloseParenSpec(st, caps).value == Sy(st.ops[..j], st.out + Emit(st.ops[j + 1..]))
  }

  /** One operator moved by ')': the result for the rest carries over. */
  lemma CloseParenPop(st: Sy, caps: Caps)
    requires WellFormedOps(st.ops) && st.ops != [] && st.ops[|st.ops| - 1] != TokLParen
    requires |st.out| < caps.out
    requires CloseParenMoves(Sy(st.ops[..|st.ops| - 1], st.out + [OpToExpr(st.ops[|st.ops| - 1]).value]), caps)
    ensures CloseParenMoves(st, caps)
  {
    var n := |st.ops|;
    var rest := st.ops[..n - 1];
    var j := LastLParen(rest);
    assert LastLParen(st.ops) == j;
    CloseParenUnfold(st, caps);
    var st1 := Sy(rest, st.out + [OpToExpr(st.ops[n - 1]).value]);
    if CloseParenSpec(st1, caps).Success? {
      assert rest[..j] == st.ops[..j];
      EmitAfterPop(st.ops, j + 1, st.out);
    }
  }

  lemma DrainUnfold(st: Sy, caps: Caps)
    requires st.ops != []
    requires OpToExpr(st.ops[|st.ops| - 1]).Some?
    ensures |st.out| < caps.out ==>
      DrainSpec(st, caps) == DrainSpec(Sy(st.ops[..|st.ops| - 1], st.out + [OpToExpr(st.ops[|st.ops| - 1]).value]), caps)
    ensures |st.out| >= caps.out ==> DrainSpec(st, caps) == Failure(OutStackFull)
  {
  }

  /** The final loop fails on a leftover '(' and otherwise exactly when the output cannot take the operators. */
  lemma {:induction false} DrainSucceeds(st: Sy, caps: Caps)
    requires WellFormedOps(st.ops) && |st.out| <= caps.out
    ensures TokLParen !in st.ops ==> (DrainSpec(st, caps).Success? <==> |st.out| + |st.ops| <= caps.out)
    ensures TokLParen in st.ops ==> DrainSpec(st, caps).Failure?
    ensures TokLParen in st.ops && |st.out| + |st.ops| <= caps.out ==> DrainSpec(st, caps) == Failure(NotAnOperator(TokLParen))
    decreases |st.ops|
  {
    var n := |st.ops|;
    if n > 0 && st.ops[n - 1] != TokLParen {
      var rest := st.ops[..n - 1];
      assert WellFormedOps(rest);
      assert TokLParen in st.ops <==> TokLParen in rest;
      DrainUnfold(st, caps);
      if |st.out| < caps.out {
        DrainSucceeds(Sy(rest, st.out + [OpToExpr(st.ops[n - 1]).value]), caps);
      }
    }
  }

  /** The final loop moves every operator, top first. */
  lemma {:induction false} DrainResult(st: Sy, caps: Caps)
    requires WellFormedOps(st.ops)
    ensures DrainSpec(st, caps).Success? ==> TokLParen !in st.ops && DrainSpec(st, caps).value == Sy([], st.out + Emit(st.ops))
    decreases |st.ops|
  {
    var n := |st.ops|;
    if n > 0 && st.ops[n - 1] != TokLParen {
      var rest := st.ops[..n - 1];
      assert WellFormedOps(rest);
      assert TokLParen in st.ops <==> TokLParen in rest;
      DrainUnfold(st, caps);
      if |st.out| < caps.out {
        var e := OpToExpr(st.ops[n - 1]).value;
        var st1 := Sy(rest, st.out + [e]);
        DrainResult(st1, caps);
        if DrainSpec(st1, caps).Success? {
          EmitTop(st.ops, 0);
          assert st.ops[0..] == st.ops && rest[0..] == rest && st.ops[0..n - 1] == rest;
          assert st1.out + Emit(rest) == st.out + Emit(st.ops);
        }
      }
    }
  }

  /**
   * A ')' with no '(' below it fails in the peek, and a '(' left at the end
   * fails in op_to_expr, when the output has room for what is moved first.
   */
  lemma UnbalancedParensFail(st: Sy, caps: Caps)
    requires WellFormedOps(st.ops) && |st.out| + |st.ops| <= caps.out
    ensures TokLParen !in st.ops ==> CloseParenSpec(st, caps) == Failure(UnmatchedRParen)
    ensures TokLParen in st.ops ==> DrainSpec(st, caps) == Failure(NotAnOperator(TokLParen))
  {
    CloseParenSucceeds(st, caps);
    DrainSucceeds(st, caps);
  }

  /** One token of the main loop: its step, then the loop from the token's end. */
  lemma RunToken(s: string, pos: nat, st: Sy, ty: PidDataType, caps: Caps)
    requires pos <= |s| && Lex(s, pos).Token?
    ensures var l := Lex(s, pos);
            match Step(s, l.kind, l.start, l.end, st, ty, caps)
            case Success(st1) => Run(s, pos, st, ty, caps) == Run(s, l.end, st1, ty, caps)
            case Failure(e) => Run(s, pos, st, ty, caps) == Failure(e)
  {
  }

  /** A step keeps only operators and '(' on the operator stack. */
  lemma StepKeepsOpsWellFormed(s: string, kind: ParseToken, start: nat, end: nat, st: Sy, ty: PidDataType, caps: Caps)
    requires start <= end <= |s|
    requires WellFormedOps(st.ops)
    ensures Step(s, kind, start, end, st, ty, caps).Success? ==> WellFormedOps(Step(s, kind, start, end, st, ty, caps).value.ops)
  {
    var r := Step(s, kind, start, end, st, ty, caps);
    if r.Success? {
      if kind == TokAdd || kind == TokSub {
        PopPendingResult(st, caps);
        var k := PendingFrom(st.ops);
        assert r.value.ops == st.ops[..k] + [kind];
      } else if kind == TokRParen {
        CloseParenResult(st, caps);
      }
    }
  }

  /** The operator stack only ever holds operators and '('. */
  lemma {:induction false} RunKeepsOpsWellFormed(s: string, pos: nat, st: Sy, ty: PidDataType, caps: Caps)
    requires pos <= |s|
    requires WellFormedOps(st.ops)
    ensures Run(s, pos, st, ty, caps).Success? ==> WellFormedOps(Run(s, pos, st, ty, caps).value.ops)
    decreases |s| - pos
  {
    match Lex(s, pos)
    case End =>
    case Unrecognized(_) =>
    case Token(kind, start, end) =>
      RunToken(s, pos, st, ty, caps);
      var r := Step(s, kind, start, end, st, ty, caps);
      if r.Success? {
        StepKeepsOpsWellFormed(s, kind, start, end, st, ty, caps);
        RunKeepsOpsWellFormed(s, end, r.value, ty, caps);
      }
  }

  /**
   * The whole translation: after the main loop the operator stack holds
   * only operators and '('; when it holds no '(' the result is the output
   * followed by those operators, top first; a leftover '(' fails.
   */
  lemma TranslateDrainsOperators(s: string, ty: PidDataType, caps: Caps)
    ensures Run(s, 0, Sy([], []), ty, caps).Success? ==>
      var st := Run(s, 0, Sy([], []), ty, caps).value;
      WellFormedOps(st.ops)
      && (Translate(s, ty, caps).Success? ==> TokLParen !in st.ops && Translate(s, ty, caps).value == st.out + Emit(st.ops))
      && (TokLParen in st.ops ==> Translate(s, ty, caps).Failure?)
  {
    RunKeepsOpsWellFormed(s, 0, Sy([], []), ty, caps);
    if Run(s, 0, Sy([], []), ty, caps).Success? {
      DrainResult(Run(s, 0, Sy([], []), ty, caps).value, caps);
    }
  }

  // ---------------------------------------------------------------------
  // Operands keep their order
  // ---------------------------------------------------------------------

  /** The operand tokens of a token sequence, in order. */
  function Operands(ts: seq<ExprToken>): seq<ExprToken>
  {
    if ts == [] then [] else Operands(ts[..|ts| - 1]) + (if ts[|ts| - 1].ExprOp? then [] else [ts[|ts| - 1]])
  }

  lemma {:induction false} OperandsAppend(a: seq<ExprToken>, b: seq<ExprToken>)
    ensures Operands(a + b) == Operands(a) + Operands(b)
    decreases |b|
  {
    if b != [] {
      var n := |b|;
      assert (a + b)[..|a + b| - 1] == a + b[..n - 1];
      OperandsAppend(a, b[..n - 1]);
    } else {
      assert a + b == a;
    }
  }

  lemma {:induction false} OperandsOfEmit(ops: seq<ParseToken>)
    requires forall i :: 0 <= i < |ops| ==> OpToExpr(ops[i]).Some?
    ensures Operands(Emit(ops)) == []
    decreases |ops|
  {
    if ops != [] {
      var e := Emit(ops);
      assert e[..|e| - 1] == Emit(ops[1..]) by {
        assert forall i :: 0 <= i < |e| - 1 ==> e[i] == OpToExpr(ops[|ops| - 1 - i]).value;
      }
      OperandsOfEmit(ops[1..]);
    }
  }

  /** The operands the lexer yields from offset `pos` on, converted as shunting_yard converts them. */
  function InputOperands(s: string, pos: nat, ty: PidDataType): seq<ExprToken>
    requires pos <= |s|
    decreases |s| - pos
  {
    match Lex(s, pos)
    case Token(kind, start, end) =>
      (if IsOperandToken(kind) && Operand(s, kind, start, end, ty).Success?
       then [Operand(s, kind, start, end, ty).value] else [])
      + InputOperands(s, end, ty)
    case _ => []
  }

  /** handle_op moves only operators to the output. */
  lemma HandleOpOperands(st: Sy, tok: ParseToken, caps: Caps)
    ensures HandleOpSpec(st, tok, caps).Success? ==> Operands(HandleOpSpec(st, tok, caps).value.out) == Operands(st.out)
  {
    if HandleOpSpec(st, tok, caps).Success? {
      PopPendingResult(st, caps);
      var k := PendingFrom(st.ops);
      OperandsAppend(st.out, Emit(st.ops[k..]));
      OperandsOfEmit(st.ops[k..]);
    }
  }

  /** A step adds at most the token's own operand, and only operator tokens besides. */
  lemma StepOperands(s: string, kind: ParseToken, start: nat, end: nat, st: Sy, ty: PidDataType, caps: Caps)
    requires start <= end <= |s|
    ensures Step(s, kind, start, end, st, ty, caps).Success? ==>
      Operands(Step(s, kind, start, end, st, ty, caps).value.out) == Operands(st.out)
        + (if IsOperandToken(kind) then [Operand(s, kind, start, end, ty).value] else [])
  {
    if IsOperandToken(kind) {
      var o := Operand(s, kind, start, end, ty);
      if o.Success? {
        PushOutOperands(st, o.value, caps);
      }
    } else if kind == TokAdd || kind == TokSub {
      HandleOpOperands(st, kind, caps);
    } else if kind == TokRParen {
      CloseParenOperands(st, caps);
    }
  }

  /** Pushing an operand onto the output adds exactly that operand. */
  lemma PushOutOperands(st: Sy, t: ExprToken, caps: Caps)
    requires !t.ExprOp?
    ensures PushOut(st, t, caps).Success? ==> Operands(PushOut(st, t, caps).value.out) == Operands(st.out) + [t]
  {
    OperandsAppend(st.out, [t]);
  }

  /** Closing a bracket moves only operators, whatever the operator stack holds. */
  lemma {:induction false} CloseParenOperands(st: Sy, caps: Caps)
    ensures CloseParenSpec(st, caps).Success? ==> Operands(CloseParenSpec(st, caps).value.out) == Operands(st.out)
    decreases |st.ops|
  {
    var n := |st.ops|;
    if n > 0 && st.ops[n - 1] != TokLParen {
      var m := MoveTop(st, caps);
      if m.Success? {
        OperandsAppend(st.out, [OpToExpr(st.ops[n - 1]).value]);
        CloseParenOperands(m.value, caps);
      }
    }
  }

  /** Draining moves only operators. */
  lemma {:induction false} DrainOperands(st: Sy, caps: Caps)
    ensures DrainSpec(st, caps).Success? ==> Operands(DrainSpec(st, caps).value.out) == Operands(st.out)
    decreases |st.ops|
  {
    var n := |st.ops|;
    if n > 0 {
      var m := MoveTop(st, caps);
      if m.Success? {
        OperandsAppend(st.out, [OpToExpr(st.ops[n - 1]).value]);
        DrainOperands(m.value, caps);
      }
    }
  }

  lemma {:induction false} RunOperands(s: string, pos: nat, st: Sy, ty: PidDataType, caps: Caps)
    requires pos <= |s|
    ensures Run(s, pos, st, ty, caps).Success? ==>
      Operands(Run(s, pos, st, ty, caps).value.out) == Operands(st.out) + InputOperands(s, pos, ty)
    decreases |s| - pos
  {
    match Lex(s, pos)
    case End =>
    case Unrecognized(_) =>
    case Token(kind, start, end) =>
      RunToken(s, pos, st, ty, caps);
      var r := Step(s, kind, start, end, st, ty, caps);
      if r.Success? {
        StepOperands(s, kind, start, end, st, ty, caps);
        RunOperands(s, end, r.value, ty, caps);
      }
  }

  /**
   * Operands reach the output in input order: the operand tokens of a
   * successful translation are exactly the operands of the input, in order.
   */
  lemma OperandsKeepInputOrder(s: string, ty: PidDataType, caps: Caps)
    ensures Translate(s, ty, caps).Success? ==> Operands(Translate(s, ty, caps).value) == InputOperands(s, 0, ty)
  {
    RunOperands(s, 0, Sy([], []), ty, caps);
    var r := Run(s, 0, Sy([], []), ty, caps);
    if r.Success? {
      DrainOperands(r.value, caps);
    }
  }

  /** How the lexer splits "A-B-C". */
  lemma LexAMinusBMinusC()
    ensures Lex("A-B-C", 0) == Token(TokA, 0, 1)
    ensures Lex("A-B-C", 1) == Token(TokSub, 1, 2)
    ensures Lex("A-B-C", 2) == Token(TokB, 2, 3)
    ensures Lex("A-B-C", 3) == Token(TokSub, 3, 4)
    ensures Lex("A-B-C", 4) == Token(TokC, 4, 5)
    ensures Lex("A-B-C", 5) == End
  {
    var s := "A-B-C";
    assert s[0] == 'A' && s[1] == '-' && s[2] == 'B' && s[3] == '-' && s[4] == 'C';
    assert SkipSpaces(s, 0) == 0 && SkipSpaces(s, 1) == 1 && SkipSpaces(s, 2) == 2;
    assert SkipSpaces(s, 3) == 3 && SkipSpaces(s, 4) == 4 && SkipSpaces(s, 5) == 5;
  }

  /**
   * "A-B-C" compiles to A B C - -, i.e. A-(B-C): a second `-` does not move
   * the first one to the output, so operators of equal precedence group to
   * the right.
   */
  lemma SubtractionGroupsRight()
    ensures Translate("A-B-C", Uint8, Caps(OpStackSize, OutStackSize))
            == Success([ExprA, ExprB, ExprC, ExprOp(OpSub), ExprOp(OpSub)])
  {
    var s := "A-B-C";
    var caps := Caps(OpStackSize, OutStackSize);
    LexAMinusBMinusC();
    var st1 := Sy([], [ExprA]);
    var st2 := Sy([TokSub], [ExprA]);
    var st3 := Sy([TokSub], [ExprA, ExprB]);
    var st4 := Sy([TokSub, TokSub], [ExprA, ExprB]);
    var st5 := Sy([TokSub, TokSub], [ExprA, ExprB, ExprC]);
    assert Run(s, 5, st5, Uint8, caps) == Success(st5);
    assert Step(s, TokC, 4, 5, st4, Uint8, caps) == Success(st5) by {
      assert st4.out + [ExprC] == st5.out;
    }
    assert Step(s, TokSub, 3, 4, st3, Uint8, caps) == Success(st4) by {
      assert PopPending(st3, caps) == Success(st3);
      assert st3.ops + [TokSub] == st4.ops;
    }
    assert Step(s, TokB, 2, 3, st2, Uint8, caps) == Success(st3) by {
      assert st2.out + [ExprB] == st3.out;
    }
    assert Step(s, TokSub, 1, 2, st1, Uint8, caps) == Success(st2) by {
      assert PopPending(st1, caps) == Success(st1);
      assert st1.ops + [TokSub] == st2.ops;
    }
    assert Step(s, TokA, 0, 1, Sy([], []), Uint8, caps) == Success(st1) by {
      assert [] + [ExprA] == st1.out;
    }
    assert Run(s, 0, Sy([], []), Uint8, caps) == Success(st5);
    var st6 := Sy([TokSub], [ExprA, ExprB, ExprC, ExprOp(OpSub)]);
    var st7 := Sy([], [ExprA, ExprB, ExprC, ExprOp(OpSub), ExprOp(OpSub)]);
    assert MoveTop(st5, caps) == Success(st6) by {
      assert st5.ops[..1] == st6.ops && st5.out + [ExprOp(OpSub)] == st6.out;
    }
    assert MoveTop(st6, caps) == Success(st7) by {
      assert st6.ops[..0] == st7.ops && st6.out + [ExprOp(OpSub)] == st7.out;
    }
    assert DrainSpec(st5, caps) == Success(st7);
  }

  /** How the lexer splits "A-1": the minus sign joins the literal. */
  lemma LexAMinusOne()
    ensures Lex("A-1", 0) == Token(TokA, 0, 1)
    ensures Lex("A-1", 1) == Token(TokNumeric, 1, 3)
    ensures Lex("A-1", 3) == End
  {
    assert NumberEnd("A-1", 2) == 3;
  }

  /**
   * "A-1" compiles to the two operands A and -1 and no operator: a `-`
   * directly before a digit is read as the sign of a literal even after an
   * operand, so the postfix program leaves two values on the stack.
   */
  lemma MinusBeforeDigitIsSign()
    ensures Translate("A-1", Uint8, Caps(OpStackSize, OutStackSize)) == Success([ExprA, ExprInt32(-1)])
  {
    var s := "A-1";
    var caps := Caps(OpStackSize, OutStackSize);
    LexAMinusOne();
    assert s[1..] == "-1";
    assert StrToL("-1", Base10) == Some(-1) by {
      assert ScanPrefix("-1", Base10) == Prefix(true, 10, 1);
      assert DigitsEnd("-1", 1, 10) == 2;
      assert "-1"[1..2] == "1";
    }
    var st1 := Sy([], [ExprA]);
    var st2 := Sy([], [ExprA, ExprInt32(-1)]);
    assert Step(s, TokA, 0, 1, Sy([], []), Uint8, caps) == Success(st1) by {
      assert [] + [ExprA] == st1.out;
    }
    assert Step(s, TokNumeric, 1, 3, st1, Uint8, caps) == Success(st2) by {
      assert Operand(s, TokNumeric, 1, 3, Uint8) == Success(ExprInt32(-1));
      assert st1.out + [ExprInt32(-1)] == st2.out;
    }
    assert Run(s, 3, st2, Uint8, caps) == Success(st2);
    assert Run(s, 0, Sy([], []), Uint8, caps) == Success(st2);
    assert DrainSpec(st2, caps) == Success(st2);
  }
}
