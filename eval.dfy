/**
 * Building and reading OBD-II CAN frames, src/eval.c.
 *
 * A `struct can_frame` is the class `CanFrame`: an identifier, a data length
 * code and an eight-byte data array that the builders fill in place. A NULL
 * frame is a null `CanFrame?`.
 *
 * The builders here are the corrected ones: they check the PID before they
 * write anything, store the high byte of a two-byte PID (not `pid & 0xff00`,
 * which a byte cannot hold), and refuse a response payload that does not fit
 * after a two-byte PID. The code as written is kept beside them as traces of
 * the writes it performs (`MakeCanQueryAsWritten`, `MakeCanResponseAsWritten`),
 * with lemmas that exhibit each difference.
 *
 * The addresses come from ISO 15765-4: functional request 0x7df, physical
 * responses 0x7e8 through 0x7ef. Their definitions live in yobd.h, which is
 * not part of this model.
 */
module Frames {

  import opened Wrappers
  import opened LibC
  import opened Errors

  type Byte = x: int | 0 <= x < 0x100
  /** yobd_mode: one byte. */
  type Mode = Byte
  /** yobd_pid: two bytes. */
  type Pid = x: int | 0 <= x < 0x1_0000
  /** canid_t. */
  type CanId = x: int | 0 <= x < 0x1_0000_0000

  const QueryAddress: CanId := 0x7df
  const ResponseBase: CanId := 0x7e8
  const ResponseEnd: CanId := 0x7ef

  /** OBD_II_PAD_VALUE: ISO 15765-2:2016 suggests 0xcc for unused bytes. */
  const PadValue: Byte := 0xcc
  /** OBD_II_DLC. */
  const ObdDlc: Byte := 8
  /** The value of SIZE_MAX + 1, the modulus of size_t arithmetic. */
  const SizeModulus: int := 0x1_0000_0000_0000_0000

  /** A struct can_frame. */
  class CanFrame {
    var canId: CanId
    var dlc: Byte
    const data: array<Byte>

    ghost predicate Valid()
      reads this
    {
      data.Length == 8
    }

    constructor (canId: CanId, dlc: Byte, bytes: seq<Byte>)
      requires |bytes| == 8
      ensures Valid()
      ensures this.canId == canId && this.dlc == dlc && data[..] == bytes
      ensures fresh(data)
    {
      this.canId := canId;
      this.dlc := dlc;
      data := new Byte[8](i requires 0 <= i < 8 => bytes[i]);
    }
  }

  /** mode_is_sae_standard: the SAE J1979 services 0x01 to 0x0a. */
  predicate ModeIsSaeStandard(mode: Mode)
  {
    mode <= 0x0a
  }

  /**
   * mode_data_offset: where the PID ends in the payload, i.e. one byte of
   * mode plus one PID byte for a standard mode and two otherwise.
   */
  function ModeDataOffset(mode: Mode): (offset: nat)
    ensures offset == 2 <==> ModeIsSaeStandard(mode)
    ensures offset == 3 <==> !ModeIsSaeStandard(mode)
  {
    if ModeIsSaeStandard(mode) then 2 else 3
  }

  /** is_query. */
  predicate IsQuery(canId: CanId)
    ensures IsQuery(canId) ==> !IsResponse(canId)
  {
    canId == QueryAddress
  }

  /** is_response. */
  predicate IsResponse(canId: CanId)
  {
    ResponseBase <= canId <= ResponseEnd
  }

  /** n bytes of padding. */
  function Pad(n: nat): (p: seq<Byte>)
    ensures |p| == n && forall k :: 0 <= k < n ==> p[k] == PadValue
  {
    seq(n, _ => PadValue)
  }

  /** The two bytes of a PID in the configured byte order. */
  function PidBytes(bigEndian: bool, pid: Pid): (b: seq<Byte>)
    ensures |b| == 2
    ensures bigEndian ==> b[0] as int * 0x100 + b[1] as int == pid
    ensures !bigEndian ==> b[1] as int * 0x100 + b[0] as int == pid
  {
    if bigEndian then [pid / 0x100, pid % 0x100] else [pid % 0x100, pid / 0x100]
  }

  /** A PID fits `mode`: a standard mode takes a one-byte PID. */
  predicate PidFits(mode: Mode, pid: Pid)
    ensures PidFits(mode, pid) <==> pid < (if ModeDataOffset(mode) == 2 then 0x100 else 0x1_0000)
  {
    ModeIsSaeStandard(mode) ==> pid <= 0xff
  }

  /**
   * The header bytes of a frame: the byte count, the mode byte, then the PID
   * in one byte for a standard mode or two otherwise.
   */
  function Header(bigEndian: bool, mode: Mode, pid: Pid, count: Byte, modeByte: Byte): (h: seq<Byte>)
    requires PidFits(mode, pid)
    ensures |h| == 1 + ModeDataOffset(mode)
    ensures h[0] == count && h[1] == modeByte
  {
    [count, modeByte] + if ModeIsSaeStandard(mode) then [pid] else PidBytes(bigEndian, pid)
  }

  /**
   * The eight data bytes of a query: the number of bytes that follow, the
   * mode, the PID and padding. None when a standard mode is given a PID above
   * 0xff (YOBD_INVALID_PID).
   */
  function QueryData(bigEndian: bool, mode: Mode, pid: Pid): (r: Option<seq<Byte>>)
    ensures r.None? <==> !PidFits(mode, pid)
    ensures r.Some? ==> |r.value| == 8 && r.value[0] == ModeDataOffset(mode) && r.value[1] == mode
    ensures r.Some? ==> forall k :: 1 + ModeDataOffset(mode) <= k < 8 ==> r.value[k] == PadValue
  {
    if !PidFits(mode, pid) then None
    else Some(Header(bigEndian, mode, pid, ModeDataOffset(mode), mode) + Pad(7 - ModeDataOffset(mode)))
  }

  /**
   * The most payload bytes a response can carry after the header of `mode`:
   * five after a one-byte PID, four after a two-byte one.
   */
  function MaxPayload(mode: Mode): (n: nat)
    ensures 1 + ModeDataOffset(mode) + n == 8
  {
    7 - ModeDataOffset(mode)
  }

  /**
   * The eight data bytes of a response carrying the first `dataSize` bytes
   * of `payload`: the byte count (header and payload), the mode plus 0x40 in
   * one byte, the PID, the payload and padding.
   */
  function ResponseData(bigEndian: bool, mode: Mode, pid: Pid, payload: seq<Byte>, dataSize: Byte)
    : (r: Result<seq<Byte>, YobdErr>)
    requires dataSize <= |payload|
    ensures r.Failure? ==> r.error == InvalidParameter || r.error == InvalidPid
    ensures r.Failure? && r.error == InvalidParameter <==> dataSize < 1 || dataSize > MaxPayload(mode)
    ensures r.Failure? && r.error == InvalidPid <==> 1 <= dataSize <= MaxPayload(mode) && !PidFits(mode, pid)
    ensures r.Success? ==> |r.value| == 8
    ensures r.Success? ==> r.value[0] == ModeDataOffset(mode) + dataSize
    ensures r.Success? ==> r.value[1] == (0x40 + mode) % 0x100
    ensures r.Success? ==> r.value[1 + ModeDataOffset(mode)..1 + ModeDataOffset(mode) + dataSize] == payload[..dataSize]
    ensures r.Success? ==> forall k :: 1 + ModeDataOffset(mode) + dataSize <= k < 8 ==> r.value[k] == PadValue
  {
    if dataSize < 1 || dataSize > MaxPayload(mode) then Failure(InvalidParameter)
    else if !PidFits(mode, pid) then Failure(InvalidPid)
    else
      var h := Header(bigEndian, mode, pid, ModeDataOffset(mode) + dataSize, (0x40 + mode) % 0x100);
      var r := h + payload[..dataSize] + Pad(MaxPayload(mode) - dataSize);
      assert r[|h|..|h| + dataSize] == payload[..dataSize];
      Success(r)
  }

  /**
   * The stores of a header: data[0], data[1], then the PID byte or bytes.
   * The bytes after the header are left as they were.
   */
  method StoreHeader(frame: CanFrame, bigEndian: bool, mode: Mode, pid: Pid, count: Byte, modeByte: Byte)
    requires frame.Valid() && PidFits(mode, pid)
    modifies frame.data
    ensures frame.data[..1 + ModeDataOffset(mode)] == Header(bigEndian, mode, pid, count, modeByte)
    ensures frame.data[1 + ModeDataOffset(mode)..] == old(frame.data[1 + ModeDataOffset(mode)..])
  {
    frame.data[0] := count;
    frame.data[1] := modeByte;
    if ModeIsSaeStandard(mode) {
      frame.data[2] := pid;
    } else {
      var b := PidBytes(bigEndian, pid);
      frame.data[2] := b[0];
      frame.data[3] := b[1];
    }
  }

  /**
   * memset(frame->data + from, OBD_II_PAD_VALUE, 8 - from): pad the tail of
   * the frame, leaving the bytes before `from` as they were.
   */
  method PadFrom(frame: CanFrame, from: nat)
    requires frame.Valid() && from <= 8
    modifies frame.data
    ensures frame.data[..from] == old(frame.data[..from])
    ensures frame.data[from..] == Pad(8 - from)
  {
    var k := from;
    while k < 8
      invariant from <= k <= 8
      invariant frame.data[..from] == old(frame.data[..from])
      invariant frame.data[from..k] == Pad(k - from)
    {
      frame.data[k] := PadValue;
      k := k + 1;
    }
  }

  /**
   * memcpy(frame->data + at, payload, n): copy the first n payload bytes,
   * leaving the bytes before `at` as they were.
   */
  method CopyPayload(frame: CanFrame, at: nat, payload: seq<Byte>, n: nat)
    requires frame.Valid() && at + n <= 8 && n <= |payload|
    modifies frame.data
    ensures frame.data[..at] == old(frame.data[..at])
    ensures frame.data[at..at + n] == payload[..n]
  {
    var k := 0;
    while k < n
      invariant 0 <= k <= n
      invariant frame.data[..at] == old(frame.data[..at])
      invariant frame.data[at..at + k] == payload[..k]
    {
      frame.data[at + k] := payload[k];
      k := k + 1;
    }
  }

  /**
   * yobd_make_can_query_noctx: fill `frame` with the query for (mode, pid).
   * On YOBD_INVALID_PID the frame is left untouched.
   */
  method MakeCanQuery(bigEndian: bool, mode: Mode, pid: Pid, frame: CanFrame?) returns (err: YobdErr)
    requires frame != null ==> frame.Valid()
    modifies if frame != null then {frame, frame.data} else {}
    ensures frame == null ==> err == InvalidParameter
    ensures frame != null && QueryData(bigEndian, mode, pid).None? ==>
              err == InvalidPid && unchanged(frame) && unchanged(frame.data)
    ensures frame != null && QueryData(bigEndian, mode, pid).Some? ==>
              err == Ok && frame.canId == QueryAddress && frame.dlc == ObdDlc
              && frame.data[..] == QueryData(bigEndian, mode, pid).value
  {
    if frame == null {
      return InvalidParameter;
    }
    if !PidFits(mode, pid) {
      return InvalidPid;
    }
    frame.canId := QueryAddress;
    frame.dlc := ObdDlc;
    var dataStart := 1 + ModeDataOffset(mode);
    StoreHeader(frame, bigEndian, mode, pid, ModeDataOffset(mode), mode);
    PadFrom(frame, dataStart);
    assert frame.data[..] == frame.data[..dataStart] + frame.data[dataStart..];
    err := Ok;
  }

  /**
   * yobd_make_can_response_noctx: fill `frame` with the response to (mode,
   * pid) carrying the first `dataSize` bytes of `payload` (None is a NULL
   * data pointer). On any error the frame is left untouched.
   */
  method MakeCanResponse(bigEndian: bool, mode: Mode, pid: Pid, payload: Option<seq<Byte>>, dataSize: Byte,
                         frame: CanFrame?) returns (err: YobdErr)
    requires frame != null ==> frame.Valid()
    requires payload.Some? ==> dataSize <= |payload.value|
    modifies if frame != null then {frame, frame.data} else {}
    ensures payload.None? || frame == null ==> err == InvalidParameter
    ensures payload.Some? && frame != null ==>
              match ResponseData(bigEndian, mode, pid, payload.value, dataSize)
              case Failure(e) => err == e && unchanged(frame) && unchanged(frame.data)
              case Success(bytes) =>
                err == Ok && frame.canId == ResponseBase && frame.dlc == ObdDlc && frame.data[..] == bytes
  {
    if payload.None? || frame == null {
      return InvalidParameter;
    }
    var offset := ModeDataOffset(mode);
    if dataSize < 1 || dataSize > 7 - offset {
      return InvalidParameter;
    }
    if !PidFits(mode, pid) {
      return InvalidPid;
    }
    frame.canId := ResponseBase;
    frame.dlc := ObdDlc;
    var dataStart := 1 + offset;
    StoreHeader(frame, bigEndian, mode, pid, offset + dataSize, (0x40 + mode) % 0x100);
    ghost var h := frame.data[..dataStart];
    CopyPayload(frame, dataStart, payload.value, dataSize);
    ghost var c := frame.data[dataStart..dataStart + dataSize];
    PadFrom(frame, dataStart + dataSize);
    assert frame.data[..dataStart] == h by {
      assert frame.data[..dataStart] == frame.data[..dataStart + dataSize][..dataStart];
    }
    assert frame.data[dataStart..dataStart + dataSize] == c by {
      assert frame.data[dataStart..dataStart + dataSize] == frame.data[..dataStart + dataSize][dataStart..];
    }
    assert frame.data[..] == frame.data[..dataStart] + frame.data[dataStart..dataStart + dataSize]
                             + frame.data[dataStart + dataSize..];
    err := Ok;
  }

  /** What parse_mode_pid reads: the mode, the PID and where the payload starts. */
  datatype ModePid = ModePid(mode: Mode, pid: Pid, dataStart: nat)

  /**
   * parse_mode_pid on a frame's identifier and data. A response's mode byte
   * is the request mode plus 0x40, so a byte below 0x41 is YOBD_INVALID_MODE.
   * A standard mode's PID is data[2]; a two-byte PID is read in the
   * configured byte order (`(hi << 8) | lo`, which on bytes is hi * 0x100 + lo).
   * The payload starts after the PID.
   */
  function DecodeModePid(bigEndian: bool, canId: CanId, bytes: seq<Byte>): (r: Result<ModePid, YobdErr>)
    requires |bytes| == 8
    ensures r.Failure? <==> IsResponse(canId) && bytes[1] < 0x41
    ensures r.Failure? ==> r.error == InvalidMode
    ensures r.Success? ==> r.value.dataStart == 1 + ModeDataOffset(r.value.mode)
    ensures r.Success? && IsResponse(canId) ==> 1 <= r.value.mode <= 0xbf
  {
    if IsResponse(canId) && bytes[1] < 0x41 then Failure(InvalidMode)
    else
      var mode: Mode := if IsResponse(canId) then bytes[1] - 0x40 else bytes[1];
      if ModeIsSaeStandard(mode) then Success(ModePid(mode, bytes[2], 3))
      else if bigEndian then Success(ModePid(mode, bytes[2] as int * 0x100 + bytes[3] as int, 4))
      else Success(ModePid(mode, bytes[3] as int * 0x100 + bytes[2] as int, 4))
  }

  /**
   * parse_mode_pid: read the mode, PID and payload start of `frame`. The C
   * routine stores the mode byte through its out-parameter before it checks
   * it, so on YOBD_INVALID_MODE `mode` holds that byte; the PID is untouched
   * and keeps the caller's value `pid0`.
   */
  method ParseModePid(bigEndian: bool, frame: CanFrame, pid0: Pid) returns (err: YobdErr, mode: Mode, pid: Pid, dataStart: nat)
    requires frame.Valid()
    ensures match DecodeModePid(bigEndian, frame.canId, frame.data[..])
            case Success(h) => err == Ok && ModePid(mode, pid, dataStart) == h
            case Failure(e) => err == e && mode == frame.data[1] && pid == pid0
  {
    pid, dataStart := pid0, 0;
    mode := frame.data[1];
    if IsResponse(frame.canId) {
      if mode < 0x41 {
        return InvalidMode, mode, pid, dataStart;
      }
      mode := mode - 0x40;
    }
    if ModeIsSaeStandard(mode) {
      pid := frame.data[2];
      dataStart := 3;
    } else {
      if bigEndian {
        pid := frame.data[2] as int * 0x100 + frame.data[3] as int;
      } else {
        pid := frame.data[3] as int * 0x100 + frame.data[2] as int;
      }
      dataStart := 4;
    }
    err := Ok;
  }

  /**
   * yobd_parse_can_headers_noctx on a non-NULL frame: an identifier that is
   * neither the query address nor a response address is YOBD_UNKNOWN_ID,
   * then a DLC other than 8 is YOBD_INVALID_DLC, then parse_mode_pid decides.
   */
  function CanHeaders(bigEndian: bool, canId: CanId, dlc: Byte, bytes: seq<Byte>): (r: Result<ModePid, YobdErr>)
    requires |bytes| == 8
    ensures r.Failure? ==> r.error == UnknownId || r.error == InvalidDlc || r.error == InvalidMode
    ensures r.Failure? && r.error == UnknownId <==> !IsQuery(canId) && !IsResponse(canId)
    ensures r.Failure? && r.error == InvalidDlc <==> (IsQuery(canId) || IsResponse(canId)) && dlc != ObdDlc
    ensures r.Success? ==> r == DecodeModePid(bigEndian, canId, bytes)
  {
    if !IsQuery(canId) && !IsResponse(canId) then Failure(UnknownId)
    else if dlc != ObdDlc then Failure(InvalidDlc)
    else DecodeModePid(bigEndian, canId, bytes)
  }

  /**
   * yobd_parse_can_headers_noctx: the caller's variables `mode0` and `pid0`
   * are overwritten only as the C routine overwrites them.
   */
  method ParseCanHeaders(bigEndian: bool, frame: CanFrame?, mode0: Mode, pid0: Pid) returns (err: YobdErr, mode: Mode, pid: Pid)
    requires frame != null ==> frame.Valid()
    ensures frame == null ==> err == InvalidParameter && mode == mode0 && pid == pid0
    ensures frame != null ==>
              match CanHeaders(bigEndian, frame.canId, frame.dlc, frame.data[..])
              case Success(h) => err == Ok && mode == h.mode && pid == h.pid
              case Failure(e) =>
                err == e && pid == pid0 && mode == (if e == InvalidMode then frame.data[1] else mode0)
  {
    mode, pid := mode0, pid0;
    if frame == null {
      return InvalidParameter, mode, pid;
    }
    if !IsQuery(frame.canId) && !IsResponse(frame.canId) {
      return UnknownId, mode, pid;
    }
    if frame.dlc != ObdDlc {
      return InvalidDlc, mode, pid;
    }
    var dataStart;
    err, mode, pid, dataStart := ParseModePid(bigEndian, frame, pid);
  }

  /** The headers of every query the builder makes read back as its mode and PID. */
  lemma QueryHeadersRoundTrip(bigEndian: bool, mode: Mode, pid: Pid)
    requires PidFits(mode, pid)
    ensures CanHeaders(bigEndian, QueryAddress, ObdDlc, QueryData(bigEndian, mode, pid).value)
            == Success(ModePid(mode, pid, 1 + ModeDataOffset(mode)))
  {
    var bytes := QueryData(bigEndian, mode, pid).value;
    var h := Header(bigEndian, mode, pid, ModeDataOffset(mode), mode);
    assert bytes[..|h|] == h;
    if !ModeIsSaeStandard(mode) {
      assert bytes[2..4] == h[2..4] == PidBytes(bigEndian, pid);
    }
  }

  /**
   * The headers of a response the builder makes read back as its mode and
   * PID exactly when the mode is 1 to 0xbf: mode 0 and modes from 0xc0 up
   * give a mode byte below 0x41 (0x40 + mode is kept in one byte).
   */
  lemma ResponseHeadersRoundTrip(bigEndian: bool, mode: Mode, pid: Pid, payload: seq<Byte>, dataSize: Byte)
    requires dataSize <= |payload|
    requires ResponseData(bigEndian, mode, pid, payload, dataSize).Success?
    ensures CanHeaders(bigEndian, ResponseBase, ObdDlc, ResponseData(bigEndian, mode, pid, payload, dataSize).value).Success?
            <==> 1 <= mode <= 0xbf
    ensures 1 <= mode <= 0xbf ==>
              CanHeaders(bigEndian, ResponseBase, ObdDlc, ResponseData(bigEndian, mode, pid, payload, dataSize).value)
              == Success(ModePid(mode, pid, 1 + ModeDataOffset(mode)))
  {
    var bytes := ResponseData(bigEndian, mode, pid, payload, dataSize).value;
    var h := Header(bigEndian, mode, pid, ModeDataOffset(mode) + dataSize, (0x40 + mode) % 0x100);
    assert bytes[..|h|] == h;
    if !ModeIsSaeStandard(mode) {
      assert bytes[2..4] == h[2..4] == PidBytes(bigEndian, pid);
    }
  }

  /**
   * The checks yobd_parse_can_response makes before it evaluates a frame:
   * a response identifier, DLC 8, a valid mode, a (mode, PID) the schema
   * describes, and a byte count equal to the header length after the count
   * byte plus the PID's can_bytes. `canBytes` maps each described (mode, PID)
   * to its can_bytes.
   */
  function CheckResponse(bigEndian: bool, canId: CanId, dlc: Byte, bytes: seq<Byte>, canBytes: map<(Mode, Pid), nat>)
    : (r: Result<ModePid, YobdErr>)
    requires |bytes| == 8
    ensures r.Failure? ==> r.error in {UnknownId, InvalidDlc, InvalidMode, UnknownModePid, InvalidDataBytes}
    ensures r.Failure? && r.error == UnknownId <==> !IsResponse(canId)
    ensures r.Failure? && r.error == InvalidDlc <==> IsResponse(canId) && dlc != ObdDlc
    ensures r.Failure? && r.error == InvalidMode <==> IsResponse(canId) && dlc == ObdDlc && bytes[1] < 0x41
    ensures r.Failure? && r.error == UnknownModePid <==>
              IsResponse(canId) && dlc == ObdDlc && DecodeModePid(bigEndian, canId, bytes).Success?
              && var h := DecodeModePid(bigEndian, canId, bytes).value;
                 (h.mode, h.pid) !in canBytes
    ensures r.Failure? && r.error == InvalidDataBytes <==>
              IsResponse(canId) && dlc == ObdDlc && DecodeModePid(bigEndian, canId, bytes).Success?
              && var h := DecodeModePid(bigEndian, canId, bytes).value;
                 (h.mode, h.pid) in canBytes && bytes[0] != ModeDataOffset(h.mode) + canBytes[(h.mode, h.pid)]
    ensures r.Success? <==>
              IsResponse(canId) && dlc == ObdDlc && DecodeModePid(bigEndian, canId, bytes).Success?
              && var h := DecodeModePid(bigEndian, canId, bytes).value;
                 (h.mode, h.pid) in canBytes && bytes[0] == ModeDataOffset(h.mode) + canBytes[(h.mode, h.pid)]
    ensures r.Success? ==> r == DecodeModePid(bigEndian, canId, bytes)
  {
    if !IsResponse(canId) then Failure(UnknownId)
    else if dlc != ObdDlc then Failure(InvalidDlc)
    else
      var h :- DecodeModePid(bigEndian, canId, bytes);
      if (h.mode, h.pid) !in canBytes then Failure(UnknownModePid)
      else if bytes[0] != ModeDataOffset(h.mode) + canBytes[(h.mode, h.pid)] then Failure(InvalidDataBytes)
      else Success(h)
  }

  /**
   * A response the builder makes passes the checks exactly when the schema
   * gives its (mode, PID) as many can_bytes as the payload it carries.
   */
  lemma BuiltResponsePassesChecks(bigEndian: bool, mode: Mode, pid: Pid, payload: seq<Byte>, dataSize: Byte,
                                  canBytes: map<(Mode, Pid), nat>)
    requires dataSize <= |payload| && 1 <= mode <= 0xbf
    requires ResponseData(bigEndian, mode, pid, payload, dataSize).Success?
    ensures CheckResponse(bigEndian, ResponseBase, ObdDlc, ResponseData(bigEndian, mode, pid, payload, dataSize).value, canBytes)
            == if (mode, pid) !in canBytes then Failure(UnknownModePid)
               else if canBytes[(mode, pid)] != dataSize then Failure(InvalidDataBytes)
               else Success(ModePid(mode, pid, 1 + ModeDataOffset(mode)))
  {
    ResponseHeadersRoundTrip(bigEndian, mode, pid, payload, dataSize);
  }

  // The builders as written in src/eval.c, as the sequence of writes they
  // make to a non-NULL frame and the code they return.

  /** One write to a frame: a field, a byte store, a memcpy or a memset. */
  datatype Write =
    | SetCanId(id: CanId)
    | SetDlc(dlc: Byte)
    | Store(index: int, value: Byte)
    | Copy(at: int, bytes: seq<Byte>)
    | Fill(at: int, count: int, value: Byte)

  datatype Trace = Trace(writes: seq<Write>, err: YobdErr)

  /** The write stays inside the eight data bytes. */
  predicate InBounds(w: Write)
  {
    match w
    case Store(i, _) => 0 <= i < 8
    case Copy(at, b) => 0 <= at && at + |b| <= 8
    case Fill(at, n, _) => 0 <= at && 0 <= n && at + n <= 8
    case _ => true
  }

  predicate AllInBounds(ws: seq<Write>)
  {
    forall i :: 0 <= i < |ws| ==> InBounds(ws[i])
  }

  /** The C expressions `pid & 0xff00` and `pid & 0x00ff`. */
  function HighMask(pid: Pid): nat
  {
    BitAnd(pid, 0xff00)
  }

  function LowMask(pid: Pid): nat
  {
    BitAnd(pid, 0x00ff)
  }

  /** Assignment to an unsigned char keeps the low eight bits. */
  function ToByte(v: int): Byte
  {
    v % 0x100
  }

  /** The two PID stores of a non-standard mode, as written. */
  function PidStoresAsWritten(bigEndian: bool, pid: Pid): (ws: seq<Write>)
    ensures |ws| == 2 && ws[0].Store? && ws[0].index == 2 && ws[1].Store? && ws[1].index == 3
  {
    if bigEndian then [Store(2, ToByte(HighMask(pid))), Store(3, ToByte(LowMask(pid)))]
    else [Store(2, ToByte(LowMask(pid))), Store(3, ToByte(HighMask(pid)))]
  }

  /**
   * yobd_make_can_query_noctx as written, on a non-NULL frame. Every write
   * stays inside the frame; YOBD_INVALID_PID comes after three writes.
   */
  function MakeCanQueryAsWritten(bigEndian: bool, mode: Mode, pid: Pid): (t: Trace)
    ensures AllInBounds(t.writes)
    ensures t.err == InvalidPid <==> !PidFits(mode, pid)
    ensures t.err == InvalidPid ==> |t.writes| == 3
  {
    var fixed := [SetCanId(QueryAddress), SetDlc(ObdDlc)];
    if ModeIsSaeStandard(mode) then
      if pid > 0xff then Trace(fixed + [Store(0, 2)], InvalidPid)
      else Trace(fixed + [Store(0, 2), Store(1, mode), Store(2, pid), Fill(3, 5, PadValue)], Ok)
    else
      Trace(fixed + [Store(0, 3), Store(1, mode)] + PidStoresAsWritten(bigEndian, pid) + [Fill(4, 4, PadValue)], Ok)
  }

  /**
   * yobd_make_can_response_noctx as written, on non-NULL pointers. The
   * memset length is size_t arithmetic, so a negative length wraps. The
   * writes stay inside the frame exactly when the payload fits the header.
   */
  function MakeCanResponseAsWritten(bigEndian: bool, mode: Mode, pid: Pid, payload: seq<Byte>, dataSize: Byte)
    : (t: Trace)
    requires dataSize <= |payload|
    ensures t.err == Ok ==> (AllInBounds(t.writes) <==> dataSize <= MaxPayload(mode))
    ensures t.err == InvalidPid <==> 1 <= dataSize <= 5 && !PidFits(mode, pid)
  {
    if dataSize < 1 || dataSize > 5 then Trace([], InvalidParameter)
    else
      var offset := ModeDataOffset(mode);
      var fixed := [SetCanId(ResponseBase), SetDlc(ObdDlc), Store(0, ToByte(offset + dataSize)), Store(1, ToByte(0x40 + mode))];
      var copy := Copy(1 + offset, payload[..dataSize]);
      var fill := Fill(1 + offset + dataSize, (8 - (1 + offset + dataSize)) % SizeModulus, PadValue);
      if ModeIsSaeStandard(mode) then
        if pid > 0xff then Trace(fixed, InvalidPid)
        else
          var ws := fixed + [Store(2, pid), copy, fill];
          assert ws[5] == copy && ws[6] == fill;
          Trace(ws, Ok)
      else
        var ws := fixed + PidStoresAsWritten(bigEndian, pid) + [copy, fill];
        assert ws[6] == copy && ws[7] == fill;
        Trace(ws, Ok)
  }

  /** A byte store of `pid & 0xff00` always stores 0: the high byte is lost. */
  lemma HighMaskByteIsZero(pid: Pid)
    ensures ToByte(HighMask(pid)) == 0
  {
    BitAndHighByte(pid);
  }

  /** 0x1234 & 0x00ff is 0x34, bit by bit. */
  lemma LowMaskExample()
    ensures LowMask(0x1234) == 0x34
  {
    assert BitAnd(36, 1) == 0;
    assert BitAnd(72, 3) == 0;
    assert BitAnd(145, 7) == 1;
    assert BitAnd(291, 15) == 3;
    assert BitAnd(582, 31) == 6;
    assert BitAnd(1165, 63) == 13;
    assert BitAnd(2330, 127) == 26;
    assert BitAnd(4660, 255) == 52;
  }

  /**
   * For a non-standard mode the query as written sends 0 in place of the
   * high PID byte: PID 0x1234 goes out as 0x0034 (big-endian), where the
   * corrected builder sends 0x12 0x34.
   */
  lemma QueryAsWrittenLosesHighByte()
    ensures MakeCanQueryAsWritten(true, 0x22, 0x1234).writes[4..6] == [Store(2, 0), Store(3, 0x34)]
    ensures QueryData(true, 0x22, 0x1234).value[2..4] == [0x12, 0x34]
  {
    HighMaskByteIsZero(0x1234);
    LowMaskExample();
    var h := Header(true, 0x22, 0x1234, 3, 0x22);
    assert QueryData(true, 0x22, 0x1234).value[..4] == h;
  }

  /** The writes of the response as written for mode 0x22, PID 0x1234 and five payload bytes. */
  lemma OverrunTrace()
    ensures MakeCanResponseAsWritten(true, 0x22, 0x1234, [1, 2, 3, 4, 5], 5)
            == Trace([SetCanId(ResponseBase), SetDlc(ObdDlc), Store(0, 8), Store(1, 0x62), Store(2, 0), Store(3, 0x34),
                      Copy(4, [1, 2, 3, 4, 5]), Fill(9, SizeModulus - 1, PadValue)], Ok)
  {
    var payload: seq<Byte> := [1, 2, 3, 4, 5];
    assert payload[..5] == payload;
    assert (8 - 9) % SizeModulus == SizeModulus - 1;
    HighMaskByteIsZero(0x1234);
    LowMaskExample();
  }

  /**
   * For a non-standard mode and a payload of five bytes the response as
   * written copies the payload to data[4..9], one byte past the frame, and
   * then asks memset for SIZE_MAX bytes from data[9]. The corrected builder
   * refuses the payload.
   */
  lemma ResponseAsWrittenOverruns()
    ensures MakeCanResponseAsWritten(true, 0x22, 0x1234, [1, 2, 3, 4, 5], 5).err == Ok
    ensures MakeCanResponseAsWritten(true, 0x22, 0x1234, [1, 2, 3, 4, 5], 5).writes[6..]
            == [Copy(4, [1, 2, 3, 4, 5]), Fill(9, SizeModulus - 1, PadValue)]
    ensures !AllInBounds(MakeCanResponseAsWritten(true, 0x22, 0x1234, [1, 2, 3, 4, 5], 5).writes)
    ensures ResponseData(true, 0x22, 0x1234, [1, 2, 3, 4, 5], 5) == Failure(InvalidParameter)
  {
    OverrunTrace();
  }

  /**
   * For a standard mode and a PID above 0xff the response as written sets
   * the identifier, the DLC, data[0] and data[1] before it returns
   * YOBD_INVALID_PID; the corrected builder leaves the frame untouched.
   */
  lemma ResponseAsWrittenWritesBeforeInvalidPid(bigEndian: bool, mode: Mode, pid: Pid, payload: seq<Byte>, dataSize: Byte)
    requires dataSize <= |payload| && 1 <= dataSize <= 5
    requires ModeIsSaeStandard(mode) && pid > 0xff
    ensures MakeCanResponseAsWritten(bigEndian, mode, pid, payload, dataSize)
            == Trace([SetCanId(ResponseBase), SetDlc(ObdDlc), Store(0, 2 + dataSize), Store(1, 0x40 + mode)], InvalidPid)
    ensures ResponseData(bigEndian, mode, pid, payload, dataSize) == Failure(InvalidPid)
  {
  }
}
