# yobd core, modelled in Dafny

yobd is a small C library that turns a YAML schema of OBD-II PIDs into a
context. The context is then used to build OBD-II query and response CAN
frames, to read their headers, and to evaluate a response's payload with the
PID's formula. A Python format checker validates schemas before they are
shipped.

This project models the core of that library:

- `wrappers.dfy`: Option, Result and Outcome.
- `libc.dfy`: the pieces of the C library the core relies on. These are
  `isspace`, `isdigit`, `strtol` in base 10 and base 0 (with ERANGE), and `&`
  on non-negative integers.
- `errors.dfy`: the `yobd_err` codes and `yobd_strerror` (src/error.c).
- `unit.dfy`: the unit-name table of `find_convert_func` (src/unit.c).
- `nop_bytes.py` checker (`nop_bytes.dfy`): the "nop-bytes" format checker,
  including Python's `int()` on the values a descriptor can hold.
- `stack.dfy`: the bounded stack generated by `DEFINE_STACK`, as a class over
  the caller's array.
- `expr.dfy`: the infix expression compiler of src/expr.c. `next_token`
  becomes a method with the C loops; the shunting yard runs over two `Stack`
  objects. Each method is proved equal to a function on sequences (`Lex`,
  `Step`, `Run`, `Translate`), and the properties of the translation are
  lemmas about those functions.
- `eval.dfy`: OBD-II frames (src/eval.c). `CanFrame` is a class whose data
  array the builders fill in place. Header parsing and the response checks of
  `yobd_parse_can_response` are modelled here. The builders exactly as
  written are kept as traces of the writes they perform.
- `evaluate.dfy`: the integer postfix evaluator `eval_expr_int32_t` over a
  `Stack`, proved against the function `EvalInt`. Also the integer branches
  of `nop_eval`.
- `parser.dfy`: the libyaml event loop of src/parser.c. The events arrive as a
  sequence. `Step`/`Run` give the meaning of one event and of a stream. The
  class `Ctx` (`struct yobd_ctx`) has methods proved to follow them.

Things the model takes from outside the listed files:

- The public header include/yobd/yobd.h only declares `struct yobd_ctx`.
  The public types and constants the core uses (`yobd_mode`, `yobd_pid`,
  `yobd_err`, `yobd_unit`, `YOBD_PID_DATA_TYPE_*`, the CAN addresses) are
  not part of this model. The model uses the ISO 15765-4 addresses 0x7df (functional query) and 0x7e8 to 0x7ef (physical
  responses).
- `yobd_mode` is taken as one byte, matching the "MMPPPP" packing comment at
  src/parser.c:48-51. `yobd_pid` is taken as two bytes.
- The error codes are numbered 0, -1, ..., -13 in the order src/error.c lists
  them.
- `int_fast32_t` is taken as 64-bit `long`, as glibc defines it on 64-bit
  targets.

Where the code and its documentation disagree, the model follows the code.
The checker's docstring (scripts/formatchecker/nop_bytes.py:6-7) says formula
PIDs need 1 to 4 CAN bytes, but the code accepts any formula PID
(scripts/formatchecker/nop_bytes.py:36-38). The two `parser.h` headers disagree
with src/parser.c and with each other, so the parser model uses the structures
declared in src/parser.c:22-46.

Where the code is evidently wrong (see "## Findings"), the operations the
rest of the model builds on use the corrected behaviour. The behaviour as
written is a separate member (`MakeCanQueryAsWritten`,
`MakeCanResponseAsWritten`, `Read24AsWritten`, `NopEvalAsWritten`,
`AssignUnitAsWritten`, `StepAsWritten`, `RunAsWritten`), and a lemma states
exactly where the two differ. "## Left out" names the operations that
follow a corrected branch, and the rows of those operations say "corrected".
The lemmas about them (the header round trips, the nop_eval round trip and
the parser invariants) are stated about the corrected behaviour as well.

Several behaviours are kept exactly as written and stated as lemmas, because
nothing shows they are unintended:

- `+` and `-` group to the right: "A-B-C" is A-(B-C).
- A `-` directly before a digit is always a sign, so "A-1" compiles to two
  operands.
- A root key after the `pids` mapping fails an assertion.

## Model

| member | source | states |
|---|---|---|
| Errors.Code | src/error.c:25-53 | every yobd code is non-positive and only YOBD_OK is 0 |
| Errors.CodeOf | src/error.c:25-53 | a value that names a code names one whose value it is (its partner CodeRoundTrip gives the other direction) |
| Errors.CodeRoundTrip | src/error.c:25-53 | every code is recovered from its value |
| Errors.StrErrorOf | src/error.c:18-62 | a positive value goes to the C library's strerror; a listed code gets its fixed message; any other value gets NULL |
| Errors.StrErrorOfCode | src/error.c:26-53 | every code's value gets that code's fixed message |
| Errors.MessagesDistinct | src/error.c:26-53 | the fixed messages are pairwise distinct |
| Unit.FindConvertFuncTable | src/unit.c:77-146 | the eleven SI units map to nop; the other nine map to their own conversion |
| Unit.FindConvertFunc | src/unit.c:77-146 | a unit is found iff it is listed, and maps to nop iff it is one of the SI units; an unlisted unit is the assertion failure |
| Unit.MatchingIsCaseSensitive | src/unit.c:83-145 | matching is exact: "kpa", "KM", "Celsius" and "RPM" are unknown |
| Unit.KmhIsKmThenPerHour | src/unit.c:46-50 | "km/h" converts as km_to_m followed by division by 3600 |
| Unit.OnlyNopIsIdentity | src/unit.c:16-75 | of the conversion functions only nop leaves every value unchanged |
| NopBytes.Strip | scripts/formatchecker/nop_bytes.py:44-45 | the text int() reads is no longer than the input and neither starts nor ends with a character int() strips: ASCII tab to carriage return, space, and the non-ASCII str.isspace characters (the ASCII separators U+001C to U+001F are kept) |
| NopBytes.StripRemovesOnlySpace | scripts/formatchecker/nop_bytes.py:44-45 | stripping removes only the white space int() ignores, and only at the two ends: the result is a slice of the input with white space before and after it |
| NopBytes.ParseInt | scripts/formatchecker/nop_bytes.py:44-45 | int() of a string accepts only text that, once stripped, is a decimal digit group (single underscores between digits), optionally signed |
| NopBytes.SeparatorIsNotStripped | scripts/formatchecker/nop_bytes.py:44-45 | int() rejects "\x1c5", since it keeps the ASCII separator, and reads a no-break space and a newline around "5" as 5 |
| NopBytes.TruncateTowardZero | scripts/formatchecker/nop_bytes.py:44-45 | int() of a finite float truncates toward zero: the result is within one of the float, on the same side of zero |
| NopBytes.PyInt | scripts/formatchecker/nop_bytes.py:44-45 | int() raises TypeError exactly on null, a list or an object; OverflowError exactly on an infinite float; ValueError exactly on NaN and on a string it cannot read; an integer is returned as it is |
| NopBytes.NatToString | scripts/formatchecker/nop_bytes.py:44-48 | a number prints as a non-empty run of digits |
| NopBytes.DigitsValueOfNatToString | scripts/formatchecker/nop_bytes.py:44-48 | the digits of a printed number read back as that number |
| NopBytes.ParseIntOfIntToString | scripts/formatchecker/nop_bytes.py:44-48 | int(str(n)) == n for every integer n |
| NopBytes.Check | scripts/formatchecker/nop_bytes.py:21-68 | a returned value is True; a ValueError from int() never escapes (it becomes the non-integer FormatError), while the other exceptions escape the checker |
| NopBytes.MissingExprFirst | scripts/formatchecker/nop_bytes.py:25-28 | a descriptor fails with the missing-expr error iff it has no `expr`, whatever else it holds |
| NopBytes.MissingValSecond | scripts/formatchecker/nop_bytes.py:30-34 | the missing-val error occurs iff `expr` is present without `val` |
| NopBytes.FormulaAccepted | scripts/formatchecker/nop_bytes.py:36-38 | a `val` other than "nop" passes, whatever `bytes` and `type` hold or whether they exist |
| NopBytes.NopStructuralErrors | scripts/formatchecker/nop_bytes.py:40-53 | for "nop": no `bytes`, then a `bytes` int() rejects with ValueError, then no `type` each fail with their own FormatError, both directions; TypeError or OverflowError from int() escapes uncaught, and only then |
| NopBytes.ExprNotObjectRaises | scripts/formatchecker/nop_bytes.py:30-31 | an `expr` that is not an object raises an uncaught TypeError at the `val` lookup |
| NopBytes.FloatBytesTruncated | scripts/formatchecker/nop_bytes.py:44-45 | a float `bytes` is checked as its truncation toward zero, so 4.7 CAN bytes pass for a float PID |
| NopBytes.WidthTable | scripts/formatchecker/nop_bytes.py:55-68 | float passes iff 4 bytes, int8/uint8 iff 1, int16/uint16 iff 1-2, int32/uint32 iff 1-4; any other type passes |
| NopBytes.CheckMeansFits | scripts/formatchecker/nop_bytes.py:8-68 | a complete "nop" descriptor passes iff its byte count fits the type's storage size: exact for float, widening-only for integers |
| NopBytes.MissingTypeReadsAsMissingExpr | scripts/formatchecker/nop_bytes.py:50-53 | a missing `type` raises the same text as a missing `expr` |
| NopBytes.WidthMessagesMisstateRule | scripts/formatchecker/nop_bytes.py:61-66 | neither range error states the rule that raised it: the int16/uint16 error names int8/uint8, the int32/uint32 error gives 1-2; the corrected texts state it |
| NopBytes.MessagesDistinct | scripts/formatchecker/nop_bytes.py:25-66 | with the corrected texts every error kind has its own message |
| Stacks.Stack.Init | include/yobd_private/stack.h:21-30 | after init the stack is empty, over the caller's buffer, with the given capacity |
| Stacks.Stack.Size | include/yobd_private/stack.h:44-48 | the size is the number of items (top minus bottom) and never exceeds the capacity |
| Stacks.Stack.MaxSize | include/yobd_private/stack.h:32-36 | max_size is the capacity given to init |
| Stacks.Stack.Data | include/yobd_private/stack.h:38-42 | data is the bottom of the stack, the caller's buffer |
| Stacks.Stack.Push | include/yobd_private/stack.h:50-57 | requires room; the item goes on top, the size grows by one, and the items below and the free slots above are unchanged |
| Stacks.Stack.Pop | include/yobd_private/stack.h:58-68 | requires an item; returns the most recently pushed item and removes exactly it |
| Stacks.Stack.Peek | include/yobd_private/stack.h:69-77 | -1 iff empty, with the caller's variable untouched; otherwise 0 and the top item; the stack is unchanged |
| Stacks.PushPopRestores | include/yobd_private/stack.h:50-68 | push then pop returns the pushed item and restores the contents (LIFO) |
| LibC.SkipSpaces | src/expr.c:47-48 | the first non-space position, with only spaces before it |
| LibC.DigitsEnd | src/expr.c:65-68 | the end of the maximal run of digits from a position |
| LibC.StrToL | src/parser.c:343-345 | strtol's result is within the range of `long`; out of range is ERANGE |
| LibC.ScanPrefix | src/parser.c:343-345 | strtol's base detection picks radix 8, 10 or 16 and a digit start inside the string |
| LibC.StrToLReadsDecimal | src/parser.c:343-345 | a run of decimal digits reads as its value in base 10, and in base 0 when it does not start with 0; out of range is ERANGE |
| LibC.StrToLReadsNegative | src/expr.c:207 | a minus sign before decimal digits reads as the negated value, or ERANGE |
| LibC.StrToLReadsHex | src/parser.c:344 | in base 0, "0x" followed by hex digits reads as their base-16 value, or ERANGE |
| LibC.ValueOfLeadingZero | src/parser.c:344 | a leading zero does not change the value of a digit string |
| LibC.StrToLReadsOctal | src/parser.c:344 | in base 0, "0" followed by octal digits reads as their base-8 value, or ERANGE |
| LibC.BitAnd | src/eval.c:165-166 | `a & b` is at most each operand |
| LibC.BitAndHighByte | src/eval.c:165 | `a & 0xff00` has its low eight bits clear |
| Expression.Classify | src/expr.c:84-118 | the single-character tokens; a numeric token is never one of them |
| Expression.NumberEnd | src/expr.c:65-78 | the number scanned from a digit ends strictly after that digit and within the string |
| Expression.Lex | src/expr.c:38-123 | a token lies after the starting offset and inside the string; so does an unrecognized character |
| Expression.NextToken | src/expr.c:38-123 | next_token's loops and branches compute exactly Lex |
| Expression.ConsumeSpaces | src/expr.c:47-48 | the white-space loop stops at the first character that is not white space, having passed only white space |
| Expression.TokenAt | src/expr.c:50-122 | the sign, digit and single-character branches after the white space yield exactly the token Lex describes from that point |
| Expression.ScanDigits | src/expr.c:66-68 | the digit loop stops at the end of the maximal digit run |
| Expression.ScanNumber | src/expr.c:65-78 | the number loops stop where NumberEnd says |
| Expression.OpToExpr | src/expr.c:125-145 | translation succeeds exactly on + - * / and always yields an operator token |
| Expression.MoveTop | src/expr.c:259-261 | moving one operator pops exactly the top of the operator stack and adds one token to the output, within its capacity |
| Expression.PopPending | src/expr.c:156-165 | handle_op's loop leaves a prefix of the operator stack and only adds to the output, within its capacity |
| Expression.HandleOpSpec | src/expr.c:147-168 | handle_op leaves its operator on top of a prefix of the old operator stack and only adds to the output, within its capacity |
| Expression.CloseParenSpec | src/expr.c:251-265 | ')' shrinks the operator stack and only adds to the output, within its capacity |
| Expression.DrainSpec | src/expr.c:269-274 | the final loop empties the operator stack and only adds to the output, within its capacity |
| Expression.Step | src/expr.c:199-266 | one token's step only adds to the output, within its capacity |
| Expression.Run | src/expr.c:190-267 | the main loop only adds to the output, within its capacity |
| Expression.Translate | src/expr.c:170-277 | a successful translation holds at least one token and fits the output stack; which tokens it holds is stated by TranslateDrainsOperators, OperandsKeepInputOrder and HandleOpPopsOnlyMulDiv |
| Expression.LexSkipsSpaces | src/expr.c:47-82 | tokens start at the first non-space; the end is reported exactly at the NUL |
| Expression.MinusBeforeDigitStartsLiteral | src/expr.c:50-107 | a '-' followed by a digit starts a numeric token at the '-'; any other '-' is the subtraction token |
| Expression.NumberEndShape | src/expr.c:59-78 | the scanned text is digits with at most one '.', and no digit follows it |
| Expression.NumericTokenIsMaximal | src/expr.c:59-78 | a numeric token is a maximal optionally signed number; a '.' follows it only if it already has one |
| Expression.SignedNumberShape | src/expr.c:50-78 | a '-' directly before a digit starts a signed number that runs to the end of the digits and at most one '.' |
| Expression.SingleCharacterTokens | src/expr.c:80-121 | every other token is one character of ( ) A B C D + - * /, and any other character is the assertion failure |
| Expression.PushOutChecked | src/expr.c:216 | a push onto the output stack succeeds iff there is room, and then appends the token |
| Expression.PushOpChecked | src/expr.c:244 | a push onto the operator stack succeeds iff there is room, and then appends the token |
| Expression.MoveTopM | src/expr.c:259-261 | popping, translating and pushing one operator does what MoveTop says |
| Expression.HandleOp | src/expr.c:147-168 | handle_op's loop leaves the stacks as HandleOpSpec says, or fails as it says |
| Expression.CloseParen | src/expr.c:251-265 | the ')' case leaves the stacks as CloseParenSpec says, or fails as it says |
| Expression.Drain | src/expr.c:269-274 | the final loop leaves the stacks as DrainSpec says, or fails as it says |
| Expression.StepM | src/expr.c:199-266 | one pass of the switch does what Step says |
| Expression.ShuntingYard | src/expr.c:170-277 | on success the output stack holds Translate's result; otherwise the failure is Translate's |
| Expression.ParseExpr | src/expr.c:279-324 | the expression is Translate's output, bottom first, with size equal to its length, between 1 and 50 |
| Expression.PopPendingSucceeds | src/expr.c:156-165 | handle_op's loop fails iff the output cannot take the run of * and / on top |
| Expression.PopPendingResult | src/expr.c:156-165 | handle_op's loop moves exactly the run of * and / at the top, top first |
| Expression.HandleOpPopsOnlyMulDiv | src/expr.c:156-167 | handle_op moves exactly the run of * and / on top of the operator stack to the output, top first, then pushes its operator; it fails iff a stack would overflow |
| Expression.MulDivParenOnlyPush | src/expr.c:241-249 | * / and ( are pushed without moving anything, and fail iff the operator stack is full |
| Expression.LastLParen | src/expr.c:252-258 | the topmost '(' on the operator stack, -1 iff there is none |
| Expression.CloseParenSucceeds | src/expr.c:251-265 | ')' without a '(' below fails; otherwise it fails iff the output cannot take the operators above the '(' |
| Expression.CloseParenResult | src/expr.c:251-265 | ')' moves the operators above the topmost '(' top first and discards the '(' |
| Expression.DrainSucceeds | src/expr.c:269-274 | a leftover '(' fails in op_to_expr; otherwise the drain fails iff the output cannot take the operators (together with lines 142-143 of the same file) |
| Expression.DrainResult | src/expr.c:269-274 | the drain moves every operator, top first |
| Expression.UnbalancedParensFail | src/expr.c:253-255 | an unmatched ')' fails in the peek; a leftover '(' fails in op_to_expr (together with lines 142-143 of the same file) |
| Expression.RunKeepsOpsWellFormed | src/expr.c:236-265 | the operator stack only ever holds operators and '(' |
| Expression.StepKeepsOpsWellFormed | src/expr.c:200-265 | one token's step leaves the operator stack holding only operators and '(' |
| Expression.TranslateDrainsOperators | src/expr.c:269-276 | the result is the loop's output followed by the remaining operators top first; a leftover '(' fails |
| Expression.StepOperands | src/expr.c:200-265 | a step adds at most its own operand to the output, plus operators |
| Expression.HandleOpOperands | src/expr.c:147-168 | handle_op moves only operators to the output and no operand |
| Expression.CloseParenOperands | src/expr.c:251-265 | closing a bracket moves only operators |
| Expression.DrainOperands | src/expr.c:269-274 | draining moves only operators |
| Expression.RunOperands | src/expr.c:190-267 | the main loop outputs the input's operands in input order |
| Expression.OperandsKeepInputOrder | src/expr.c:200-234 | the operand tokens of the compiled expression are exactly the operands of the input, in order (together with lines 297-310 of the same file) |
| Expression.LexAMinusBMinusC | src/expr.c:38-123 | "A-B-C" lexes as A, -, B, -, C |
| Expression.SubtractionGroupsRight | src/expr.c:156-167 | "A-B-C" compiles to A B C - -, i.e. A-(B-C) |
| Expression.LexAMinusOne | src/expr.c:50-56 | "A-1" lexes as A followed by the literal "-1" |
| Expression.MinusBeforeDigitIsSign | src/expr.c:200-217 | "A-1" compiles to the operands A and -1 and no operator (together with lines 50-56 of the same file) |
| Frames.CanFrame.constructor | src/eval.c:138 | a frame with the given identifier, DLC and eight data bytes |
| Frames.ModeDataOffset | src/eval.c:116-131 | the offset is 2 iff the mode is SAE standard (<= 0x0a), and 3 otherwise |
| Frames.IsQuery | src/eval.c:278-289 | no identifier is both the query address and a response address |
| Frames.PidFits | src/eval.c:151-156 | a PID fits iff it is below 0x100 for an SAE standard mode, and below 0x10000 otherwise |
| Frames.Pad | src/eval.c:19-23 | n bytes of the padding value 0xcc |
| Frames.PidBytes | src/eval.c:163-172 | corrected (`pid >> 8` for the high byte): the two PID bytes read back as the PID in the configured byte order |
| Frames.Header | src/eval.c:151-243 | corrected: the header is the count byte, the mode byte, then one PID byte for a standard mode or two otherwise |
| Frames.QueryData | src/eval.c:150-180 | corrected: a query fails iff a standard mode gets a PID above 0xff; otherwise data[0] is the offset, data[1] the mode, and everything after the PID is 0xcc |
| Frames.MaxPayload | src/eval.c:214-251 | a response's payload fills exactly the bytes left after its header |
| Frames.ResponseData | src/eval.c:210-251 | corrected (the size is bounded by MaxPayload): INVALID_PARAMETER iff the size is 0 or does not fit; then INVALID_PID iff a standard mode gets a PID above 0xff; otherwise the count, mode + 0x40, PID, payload and padding |
| Frames.StoreHeader | src/eval.c:152-240 | corrected: the header stores write exactly the header and leave the rest of the frame |
| Frames.PadFrom | src/eval.c:176-251 | memset pads the tail with 0xcc and leaves the bytes before it |
| Frames.CopyPayload | src/eval.c:245 | memcpy copies the payload after the header and leaves the bytes before it |
| Frames.MakeCanQuery | src/eval.c:133-183 | the corrected builder: a NULL frame gives INVALID_PARAMETER; an invalid PID gives INVALID_PID with the frame untouched; otherwise the frame is the query address, DLC 8 and QueryData (MakeCanQueryAsWritten is the code as written) |
| Frames.MakeCanResponse | src/eval.c:199-254 | the corrected builder: NULL arguments give INVALID_PARAMETER; an error leaves the frame untouched; otherwise the frame is the response base, DLC 8 and ResponseData (MakeCanResponseAsWritten is the code as written) |
| Frames.DecodeModePid | src/eval.c:404-439 | a response fails iff its mode byte is below 0x41; then the mode is between 1 and 0xbf; the payload starts right after the PID |
| Frames.ParseModePid | src/eval.c:404-439 | parse_mode_pid computes DecodeModePid; on INVALID_MODE the mode out-parameter holds the raw byte and the PID is untouched |
| Frames.CanHeaders | src/eval.c:455-468 | UNKNOWN_ID iff the identifier is neither query nor response; then INVALID_DLC iff the DLC is not 8; then parse_mode_pid decides |
| Frames.ParseCanHeaders | src/eval.c:441-469 | a NULL frame gives INVALID_PARAMETER; otherwise the result is CanHeaders'; the caller's variables change only as the C code writes them |
| Frames.QueryHeadersRoundTrip | src/eval.c:133-183 | every query the builder makes reads back as its own mode and PID (together with lines 441-469 of the same file) |
| Frames.ResponseHeadersRoundTrip | src/eval.c:199-254 | a built response reads back as its own mode and PID iff the mode is 1 to 0xbf (together with lines 404-439 of the same file) |
| Frames.CheckResponse | src/eval.c:499-534 | the checks in order, each error iff the earlier checks pass and its own fails: UNKNOWN_ID iff not a response, INVALID_DLC iff the DLC is not 8, INVALID_MODE iff the mode byte is below 0x41, UNKNOWN_MODE_PID iff the pair is not described, INVALID_DATA_BYTES iff the count byte is not the offset plus can_bytes; success iff all pass, with the decoded mode and PID |
| Frames.BuiltResponsePassesChecks | src/eval.c:199-254 | a built response passes the checks iff the schema gives its mode/PID as many can_bytes as it carries (together with lines 499-534 of the same file) |
| Frames.PidStoresAsWritten | src/eval.c:163-241 | the two-byte PID is written to data[2] and data[3] |
| Frames.MakeCanQueryAsWritten | src/eval.c:133-183 | every write stays in the frame; INVALID_PID iff a standard mode gets a PID above 0xff, after three writes |
| Frames.MakeCanResponseAsWritten | src/eval.c:199-254 | on YOBD_OK the writes stay in the frame iff the payload fits after the header; INVALID_PID iff the size is 1-5 and the PID does not fit |
| Frames.HighMaskByteIsZero | src/eval.c:165-240 | `pid & 0xff00` stored into a byte is always 0 |
| Frames.LowMaskExample | src/eval.c:166 | 0x1234 & 0x00ff is 0x34 |
| Frames.QueryAsWrittenLosesHighByte | src/eval.c:162-167 | PID 0x1234 is sent as 0x00 0x34, where the corrected builder sends 0x12 0x34 |
| Frames.OverrunTrace | src/eval.c:199-254 | the exact writes for mode 0x22, PID 0x1234 and five payload bytes |
| Frames.ResponseAsWrittenOverruns | src/eval.c:214-251 | five payload bytes after a two-byte PID are copied to data[4..9], then memset is asked for SIZE_MAX bytes; the corrected builder refuses the size |
| Frames.ResponseAsWrittenWritesBeforeInvalidPid | src/eval.c:219-229 | for a standard mode and a PID above 0xff, the identifier, DLC, data[0] and data[1] are written before INVALID_PID is returned |
| Evaluate.ApplyOp | src/eval.c:77-90 | a result lies in the range of `long`; the division-by-zero fault happens iff the operator is / with a zero right operand |
| Evaluate.CDiv | src/eval.c:88 | C division truncates toward zero: the remainder is smaller than the divisor in magnitude and is zero or has the dividend's sign |
| Evaluate.CDivTruncates | src/eval.c:88 | -7 / 2 is -3 in C where Dafny's division gives -4 |
| Evaluate.ExecToken | src/eval.c:50-101 | an operand pushes one value and keeps the rest; an operator replaces the top two values by one and needs two; a float token is the assertion failure |
| Evaluate.Exec | src/eval.c:49-103 | the loop's final stack is at most as deep as the start plus one per token; what the stack then holds is stated by ExecAppend, PostfixPushesValue and EvalIntOfPostfix |
| Evaluate.Wrap32 | src/eval.c:109 | the conversion to int32_t is congruent modulo 2^32, lies in range, and keeps in-range values |
| Evaluate.EvalInt | src/eval.c:36-113 | the result is an int32_t value |
| Evaluate.IntTokens | src/eval.c:52-94 | the evaluation stack holds exactly the integer tokens of the values |
| Evaluate.ExecTokenOnStack | src/eval.c:50-102 | one pass of the loop changes the stack as ExecToken says, or fails as it says |
| Evaluate.EvalExprInt32 | src/eval.c:36-113 | eval_expr_int32_t returns EvalInt's result (before the float cast) |
| Evaluate.StackEvalInt | src/eval.c:354-379 | with a stack as large as the expression, the integer evaluation returns EvalInt's result |
| Evaluate.ExecAppend | src/eval.c:49-103 | running two token sequences in a row is running the first, then the second from its stack |
| Evaluate.PostfixPushesValue | src/eval.c:71-92 | the postfix form of a term pushes the term's value, with the left operand below the right, or fails as the term does |
| Evaluate.EvalIntOfPostfix | src/eval.c:36-113 | evaluating a term's postfix form gives the term's value as int32_t, or its fault |
| Evaluate.SubtractionGroupsRightValue | src/eval.c:81-83 | the program compiled from "A-B-C" evaluates to A - (B - C) |
| Evaluate.NopEval | src/eval.c:291-352 | the corrected nop_eval: it succeeds iff 1 to 4 bytes, and reads float bits iff 4 bytes of a float PID (NopEvalAsWritten is the code as written) |
| Evaluate.ValuesOfOne | src/eval.c:305-307 | one byte reads as itself in either order |
| Evaluate.ValuesOfTwo | src/eval.c:308-315 | two bytes read as be16toh / le16toh |
| Evaluate.ValuesOfThree | src/eval.c:316-324 | three bytes read as the big-endian and little-endian 24-bit values |
| Evaluate.Read24 | src/eval.c:316-324 | the corrected three-byte branch reads the three bytes as an unsigned number in the configured order |
| Evaluate.Read24AsWritten | src/eval.c:316-324 | as written, the little-endian value's low byte and middle byte are both data[0], its high byte is data[2]; the value is below 2^24 |
| Evaluate.ValuesOfFour | src/eval.c:325-333 | four bytes read as be32toh / le32toh |
| Evaluate.NopEvalReadsUnsigned | src/eval.c:304-345 | the corrected nop_eval reads the first can_bytes bytes as an unsigned number in the configured order |
| Evaluate.UnsignedOfEncode | src/eval.c:304-345 | reading back the bytes of a number that fits gives the number |
| Evaluate.NopEvalRoundTrip | src/eval.c:304-345 | a value sent in can_bytes bytes in the configured order is what nop_eval reads back |
| Evaluate.Read24AsWrittenWrong | src/eval.c:316-324 | the three-byte little-endian branch as written is right iff data[0] equals data[1]; big-endian is right |
| Evaluate.Read24AsWrittenExample | src/eval.c:321 | [1, 2, 3] reads as 0x030101 where 0x030201 was sent |
| Evaluate.NopEvalAsWrittenDiffers | src/eval.c:291-352 | nop_eval as written agrees with the corrected one except for three little-endian bytes, where it agrees iff data[0] equals data[1] |
| Parser.ModePidKey | src/parser.c:48-78 | the packed key fits in the MMPPPP layout (below 2^24) |
| Parser.ModePidKeyRoundTrip | src/parser.c:48-52 | the key gives back its mode and its PID |
| Parser.ModePidKeyInjective | src/parser.c:61-78 | two pairs share a key iff they are the same pair |
| Parser.KeyNamed | src/parser.c:168-178 | a word maps to the key the table names by it, and to nothing iff no key has that name |
| Parser.KeyNamedIff | src/parser.c:168-183 | both directions of the table lookup |
| Parser.FindKey | src/parser.c:163-187 | find_key's loop finds KeyNamed's key; an unknown word is the assertion failure |
| Parser.TypeNamed | src/parser.c:200-205 | a word maps to a type the table names by it, and to nothing iff no row has that name |
| Parser.TypeNamedIff | src/parser.c:200-212 | both directions of the type lookup |
| Parser.FindType | src/parser.c:194-216 | find_type's loop returns the byte count and type of the row TypeNamed picks, and nothing (the failed assertion) iff no row has that name |
| Parser.FindTypeAgreesWithChecker | src/parser.c:200-205 | each type the parser knows, with its byte count, passes the passthrough checker, and that count is the type's size |
| Parser.GetAfterPut | src/parser.c:54-84 | after put_mode_pid the pair is found, an existing entry is kept, and no other pair's lookup changes |
| Parser.PutModePid | src/parser.c:69-84 | put_mode_pid adds exactly the packed key, keeps every existing entry, and gives a new key a cleared entry |
| Parser.GetModePid | src/parser.c:54-67 | get_mode_pid finds an entry iff the packed key is present, and returns that key's entry |
| Parser.Ctx.constructor | src/parser.c:528-541 | the context before parsing: empty maps and unit ID 0 next |
| Parser.OnMappingStart | src/parser.c:279-311 | a mapping start never stops the loop; when it continues, the units, their IDs and the byte order are unchanged and PID entries are only added |
| Parser.OnMappingEnd | src/parser.c:312-330 | a mapping end never stops the loop; it fails the assertion iff no mapping is open, and otherwise leaves the context unchanged |
| Parser.AssignUnit | src/parser.c:394-438 | the corrected unit branch records the unit name and changes only the current PID's entry, never the cursor or the set of PID keys |
| Parser.AssignUnitAsWritten | src/parser.c:394-438 | the unit branch as written records the unit name and changes nothing at all for a name already seen |
| Parser.OnScalar | src/parser.c:332-473 | a scalar never stops the loop; when it continues the set of PID keys is unchanged and the scalar either names a pending key or consumes it |
| Parser.Step | src/parser.c:258-475 | one pass of the loop stops iff the event is a document end, a stream end or a libyaml failure, with YOBD_OOM only for the failure |
| Parser.Run | src/parser.c:251-478 | a finished loop returns YOBD_OK or YOBD_OOM; every other error is an abort |
| Parser.Ctx.Get | src/parser.c:54-67 | get_mode_pid finds an entry iff the packed key is in the map, and returns that entry |
| Parser.Ctx.Put | src/parser.c:69-84 | put_mode_pid inserts a fresh entry only for an absent key; the pair is then found; nothing else changes |
| Parser.Ctx.EnterMapping | src/parser.c:279-311 | the mapping-start branch does what OnMappingStart says to the context |
| Parser.Ctx.LeaveMapping | src/parser.c:312-330 | the mapping-end branch does what OnMappingEnd says and leaves the context alone |
| Parser.Ctx.SetCurrent | src/parser.c:370-472 | replaces the current PID's entry and nothing else |
| Parser.Ctx.TakeUnit | src/parser.c:394-438 | the unit branch does what the corrected AssignUnit says |
| Parser.Ctx.TakeRootScalar | src/parser.c:334-368 | the key, mode, endian, pids and expr scalar branches do what OnScalar says (together with lines 452-456 of the same file) |
| Parser.Ctx.TakePidScalar | src/parser.c:370-472 | the name, bytes, unit, type and val scalar branches do what OnScalar says, with the corrected unit branch |
| Parser.Ctx.Handle | src/parser.c:258-475 | one pass of the loop body does what Step says, with the corrected unit branch; a stop or abort leaves the context as it was |
| Parser.Ctx.Parse | src/parser.c:218-494 | the result and the context left are Run's from the starting cursor, with the corrected unit branch |
| Parser.Load | src/parser.c:496-565 | the context is handed out iff parsing returns YOBD_OK; it is then Run's context (corrected unit branch), and its units are well formed |
| Parser.FindUnitId | src/parser.c:400-404 | an ID that names the unit below the counter, or none iff no such ID exists |
| Parser.StartInv | src/parser.c:235-250 | the loop starts with the invariant holding (together with lines 540-541 of the same file) |
| Parser.NewUnitGetsNextId | src/parser.c:406-438 | a new unit gets the next ID, which was free; the counter grows by exactly one; the ID names the unit |
| Parser.RepeatedUnitKeepsCounters | src/parser.c:400-404 | a repeated unit leaves the counter, the unit map and the set of names unchanged |
| Parser.UnitIdsNameTheirUnit | src/parser.c:394-438 | after the unit scalar the entry's unit ID names that unit, new or repeated, and the invariant holds |
| Parser.SetEntryKeepsInv | src/parser.c:370-472 | replacing the entry by one whose unit is known keeps the invariant |
| Parser.RepeatedUnitLeftUnsetAsWritten | src/parser.c:400-404 | as written a repeated unit leaves an entry without a unit; the corrected branch sets it |
| Parser.StepAsWrittenDiffersOnlyOnRepeatedUnit | src/parser.c:400-404 | the loop as written and the corrected loop differ only on a unit scalar naming a unit already seen |
| Parser.StepAsWrittenKeepsInv | src/parser.c:258-475 | one pass of the loop as written keeps the invariant |
| Parser.RunAsWrittenKeepsInv | src/parser.c:251-478 | the loop as written keeps unit IDs dense from 0 and distinct per name |
| Parser.MappingStartKeepsInv | src/parser.c:279-311 | a mapping start keeps the invariant |
| Parser.ScalarKeepsInv | src/parser.c:332-473 | a scalar keeps the invariant |
| Parser.EntryScalarKeepsInv | src/parser.c:370-472 | a scalar filling a field of the current PID entry keeps the invariant, including that unit IDs name their unit |
| Parser.StepKeepsInv | src/parser.c:258-475 | every pass of the loop keeps the invariant |
| Parser.RunKeepsInv | src/parser.c:251-478 | the whole loop keeps unit IDs dense from 0, distinct per name, and every entry's unit known, however it ends |
| Parser.EntryAlwaysSet | src/parser.c:374-444 | inside a PID block the entry pointer is never NULL when name, bytes, unit or type is read |
| Parser.MappingStartDescends | src/parser.c:279-311 | a mapping start moves NONE to ROOT to PIDS to SPECIFIC_PID, and to EXPR only after `expr`; from PIDS it needs a mode and a PID read, and registers the pair with a cleared name and touches no other entry |
| Parser.MappingEndAscends | src/parser.c:312-330 | a mapping end moves one level up (ROOT stays), leaves the context alone, and resets the key to KEY_PIDS when leaving a PID |
| Parser.NestingRoundTrip | src/parser.c:279-330 | a mapping that opens and closes at once brings the cursor back to its level |
| Parser.ScalarKeyDiscipline | src/parser.c:334-473 | with no key pending a scalar is accepted iff it names a key, and sets it; every value scalar clears the key |
| Parser.EndianScalar | src/parser.c:348-359 | "big" and "little" set the byte order; any other word is the assertion failure |
| Parser.EndEventsStop | src/parser.c:252-274 | document or stream end stops the loop with YOBD_OK; a libyaml failure stops it with YOBD_OOM |
| Parser.RootKeyAfterPidsAborts | src/parser.c:322-362 | after the pids mapping closes the key stays KEY_PIDS, so a following root key fails the map assertion |

## Left out

- Floating point: the conversion arithmetic of src/unit.c is stated over exact reals, with no float rounding. Also left out: `eval_expr_float`, the `(float)` result casts, `strtof` (a float literal is kept as its text), and the IEEE-754 reinterpretation in `nop_eval` (the model returns the bits).
- `eval_expr` and the final `convert(val)` call: they only dispatch to `nop_eval`, `stack_eval` and a unit conversion, all listed above.
- I/O and allocation: libyaml's event production (the events are an input sequence), `fopen`/`fclose`, `malloc`/`strdup` and every YOBD_OOM path they cause, `kh_trim`, `yobd_free_ctx` and `destroy_expr`.
- The NULL dereference at src/parser.c:289-294: it happens only when `put_mode_pid` runs out of memory.
- NULL out-pointer arguments other than the frame and the payload. The `ctx` wrappers `yobd_make_can_query`, `yobd_make_can_response` and `yobd_parse_can_headers` only forward `big_endian`. `yobd_get_unit_str` is a plain lookup in the unit map; Parser.UnitsWellFormed states what makes it succeed for every entry's unit. `yobd_get_pid_descriptor` reads the PID map through a layout src/eval.c declares differently from src/parser.c.
- Frames.CheckResponse: takes the schema as a map from mode/PID to can_bytes, because src/eval.c reads a `parse_pid_ctx` layout (`desc`, `pid_type`, `convert_func`) that src/parser.c does not declare.
- Parser.Run: an event sequence that ends before an end event is treated as a libyaml failure (YOBD_OOM).
- Parser.OnScalar: reads of variables that were never assigned (`mode`, `pid`, `parse_ctx`, an unset type) are the fault `Uninitialized` rather than undefined values.
- Parser.Schema: unit IDs are unbounded naturals. The width of `yobd_unit` and of the unit map's 8-bit key are set by the public `yobd_unit` type, which is not part of this model.
- Parser.TypeRow: the `types` table is indexed by `YOBD_PID_DATA_TYPE_*`, which is not part of this model. The model assumes UINT8 and FLOAT are its two entries. If they follow the private `pid_data_type` (include/yobd-private/types.h:11-17, FLOAT = 4), the table has NULL names at indices 1 to 3 and `strcmp` is handed NULL.
- Evaluate.EvalExprInt32: division by zero and arithmetic outside `long` are undefined behaviour in C and are excluded by a precondition (`Defined`).
- Expression.ParseExpr: the YOBD_OOM returns of the two `malloc` calls are not modelled. The expression's evaluation stack is allocated by StackEvalInt instead of being stored in the expression.
- Frames.PidBytes, Frames.Header, Frames.QueryData, Frames.ResponseData, Frames.StoreHeader, Frames.MakeCanResponse: these follow the corrected builders. They store `pid >> 8` as the high PID byte where src/eval.c:165, 171, 235 and 240 store `pid & 0xff00`. ResponseData rejects a payload longer than MaxPayload where src/eval.c:214 accepts up to 5 bytes for every mode. PidStoresAsWritten, MakeCanQueryAsWritten and MakeCanResponseAsWritten are the code as written.
- Frames.MakeCanQuery: the main model uses the corrected builder, which checks the PID before writing and sends the high PID byte. MakeCanQueryAsWritten is the code as written: it writes the identifier, DLC and data[0] before INVALID_PID and sends `pid & 0xff00` as the high byte. Frames.MakeCanResponse is corrected in the same way (MakeCanResponseAsWritten).
- Evaluate.NopEval: the main model uses the corrected three-byte little-endian branch (Read24). NopEvalAsWritten and Read24AsWritten are the code as written, and NopEvalAsWrittenDiffers states where they differ.
- Parser.OnScalar: the main model uses the corrected unit branch (AssignUnit), which gives a repeated unit its existing ID. StepAsWritten, RunAsWritten and AssignUnitAsWritten are the code as written, which leaves the entry's unit unset.
- Parser.Ctx.TakeUnit: follows the corrected unit branch, so for a repeated unit it sets the unit ID where src/parser.c:400-404 leaves it unset.
- Parser.Ctx.TakePidScalar: follows the corrected unit branch, so for a repeated unit it sets the unit ID where src/parser.c:400-404 leaves it unset.
- Parser.Ctx.Handle: follows the corrected unit branch, so for a repeated unit it sets the unit ID where src/parser.c:400-404 leaves it unset.
- Parser.Ctx.Parse: follows the corrected unit branch, so for a repeated unit it sets the unit ID where src/parser.c:400-404 leaves it unset.
- Parser.Load: follows the corrected unit branch, so for a repeated unit it sets the unit ID where src/parser.c:400-404 leaves it unset.
- NopBytes.ParseInt: only ASCII digits are read. int() also accepts the other Unicode decimal digits, and Python 3.11 and later reject strings of more than 4300 digits. Neither matters for the byte counts a schema holds.
- NopBytes.Check: the descriptor itself is taken to be a JSON object, so `desc['expr']` only ever raises KeyError. The text of each FormatError is modelled without the `%s` rendering of the descriptor. A NaN or infinite `bytes` can come only from a YAML document, since JSON has no such values.
- Logging, src/entrypoint.c, src/assert.c, and scripts/formatchecker/infix.py, which configures an external library whose grammar is not visible.

## Findings

| source | as written | input that shows it | evidently intended | confidence | as-written member | corrected member |
|---|---|---|---|---|---|---|
| src/eval.c:165, 171, 235, 240 | the high PID byte is stored as `pid & 0xff00` in an unsigned char, which is always 0 | non-standard mode 0x22, PID 0x1234, big-endian: data[2..4] = 00 34 | store `pid >> 8`, sending 12 34 | high; not executed | Frames.QueryAsWrittenLosesHighByte | Frames.QueryHeadersRoundTrip |
| src/eval.c:214-251 | data_size up to 5 is accepted for every mode, but after a two-byte PID only 4 bytes remain | mode 0x22, PID 0x1234, 5 payload bytes: memcpy writes data[4..9], then memset gets length SIZE_MAX | reject data_size > 4 for non-standard modes | high; not executed | Frames.ResponseAsWrittenOverruns | Frames.MakeCanResponse |
| src/eval.c:147-156, 219-229 | the builders write the identifier, DLC and data[0] (and data[1] for responses) before returning YOBD_INVALID_PID | standard mode 0x01, PID 0x100 | check the PID before touching the frame | medium; not executed | Frames.MakeCanQueryAsWritten, Frames.ResponseAsWrittenWritesBeforeInvalidPid | Frames.MakeCanQuery, Frames.MakeCanResponse |
| src/eval.c:321 | the three-byte little-endian value is `(data[2] << 16) \| (data[0] << 8) \| data[0]` | bytes 01 02 03 read as 0x030101 | `(data[2] << 16) \| (data[1] << 8) \| data[0]` = 0x030201 | high; not executed | Evaluate.Read24AsWrittenWrong | Evaluate.NopEvalRoundTrip |
| src/parser.c:400-404 | a unit already seen leaves the PID's unit field unassigned | two PIDs with `unit: km/h`: the second gets no unit ID | give the PID the ID its unit already has | medium; not executed | Parser.RepeatedUnitLeftUnsetAsWritten | Parser.UnitIdsNameTheirUnit |
| scripts/formatchecker/nop_bytes.py:53, 63, 66 | a missing `type` reports a missing `expr`; the int16 error names int8/uint8; the int32 error states 1-2 bytes | nop descriptor without `type`; int16 with 3 bytes; int32 with 5 bytes | name the missing key and the rule actually checked | high; not executed | NopBytes.WidthMessagesMisstateRule | NopBytes.MessagesDistinct |
